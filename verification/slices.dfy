/** internal/slices/slice.go. */
module Slices {
  function Filtered<T>(slice: seq<T>, test: T -> bool): (ret: seq<T>)
    ensures forall x | x in ret :: x in slice && test(x)
    ensures forall x | x in slice && test(x) :: x in ret
  {
    if slice == [] then []
    else
      var last := slice[|slice| - 1];
      var before := Filtered(slice[..|slice| - 1], test);
      assert slice == slice[..|slice| - 1] + [last];
      if test(last) then before + [last] else before
  }

  method Filter<T>(slice: seq<T>, test: T -> bool) returns (ret: seq<T>)
    ensures ret == Filtered(slice, test)
  {
    ret := [];
    for i := 0 to |slice|
      invariant ret == Filtered(slice[..i], test)
    {
      assert slice[..i + 1][..i] == slice[..i];
      if test(slice[i]) {
        ret := ret + [slice[i]];
      }
    }
    assert slice[..|slice|] == slice;
  }

  /** The elements kept are in their order: multiplicities agree, and filtering distributes over concatenation. */
  lemma {:induction false} FilteredConcat<T>(a: seq<T>, b: seq<T>, test: T -> bool)
    ensures Filtered(a + b, test) == Filtered(a, test) + Filtered(b, test)
    decreases |b|
  {
    if b == [] {
      assert a + b == a;
    } else {
      FilteredConcat(a, b[..|b| - 1], test);
      assert (a + b)[..|a + b| - 1] == a + b[..|b| - 1];
    }
  }

  function CommonPrefix(s1: seq<string>, s2: seq<string>): (count: nat)
    ensures count <= |s1| && count <= |s2| && s1[..count] == s2[..count]
    ensures count < |s1| && count < |s2| ==> s1[count] != s2[count]
  {
    if s1 == [] || s2 == [] || s1[0] != s2[0] then 0
    else
      var rest := CommonPrefix(s1[1..], s2[1..]);
      assert s1[..rest + 1] == [s1[0]] + s1[1..][..rest];
      assert s2[..rest + 1] == [s2[0]] + s2[1..][..rest];
      rest + 1
  }

  /** The contract of CommonPrefix leaves one number. */
  lemma CommonPrefixIs(s1: seq<string>, s2: seq<string>, k: nat)
    requires k <= |s1| && k <= |s2| && s1[..k] == s2[..k]
    requires k < |s1| && k < |s2| ==> s1[k] != s2[k]
    ensures CommonPrefix(s1, s2) == k
  {
  }

  method Intersection(s1: seq<string>, s2: seq<string>) returns (count: nat)
    ensures count == CommonPrefix(s1, s2)
  {
    count := 0;
    while count < |s1|
      invariant count <= |s1| && count <= |s2| && s1[..count] == s2[..count]
    {
      if count < |s2| && s1[count] == s2[count] {
        assert s1[..count + 1] == s1[..count] + [s1[count]];
        assert s2[..count + 1] == s2[..count] + [s2[count]];
        count := count + 1;
      } else {
        break;
      }
    }
    CommonPrefixIs(s1, s2, count);
  }
}
