/** python/gridtools/__init__.py: the join_with_prefix template filter. */
module JoinPrefix {
  import opened Wrappers

  /** join_with_prefix(a_list, prefix, attribute=None). With no attribute each element
      is formatted with str; with one, the named attribute of the element is
      formatted. Both formatting steps are parameters. */
  function JoinWithPrefix<T>(aList: seq<T>, prefix: string, attribute: Option<string>,
                             str: T -> string, getattrStr: (T, string) -> string): (r: seq<string>)
    ensures |r| == |aList|
    ensures attribute.None? ==> forall i :: 0 <= i < |aList| ==> r[i] == prefix + str(aList[i])
    ensures attribute.Some? ==> forall i :: 0 <= i < |aList| ==> r[i] == prefix + getattrStr(aList[i], attribute.value)
  {
    match attribute
    case None => seq(|aList|, i requires 0 <= i < |aList| => prefix + str(aList[i]))
    case Some(a) => seq(|aList|, i requires 0 <= i < |aList| => prefix + getattrStr(aList[i], a))
  }

  /** Every result starts with the prefix, and removing it leaves the element's string. */
  lemma PrefixThenElement<T>(aList: seq<T>, prefix: string, str: T -> string, getattrStr: (T, string) -> string, i: nat)
    requires i < |aList|
    ensures prefix <= JoinWithPrefix(aList, prefix, None, str, getattrStr)[i]
    ensures JoinWithPrefix(aList, prefix, None, str, getattrStr)[i][|prefix|..] == str(aList[i])
  {
    var r := JoinWithPrefix(aList, prefix, None, str, getattrStr);
    assert r[i] == prefix + str(aList[i]);
    assert r[i][..|prefix|] == prefix;
  }

  /** The filter distributes over concatenation: order is kept. */
  lemma JoinDistributes<T>(a: seq<T>, b: seq<T>, prefix: string, attribute: Option<string>,
                           str: T -> string, getattrStr: (T, string) -> string)
    ensures JoinWithPrefix(a + b, prefix, attribute, str, getattrStr) ==
            JoinWithPrefix(a, prefix, attribute, str, getattrStr) + JoinWithPrefix(b, prefix, attribute, str, getattrStr)
  {
    var l := JoinWithPrefix(a + b, prefix, attribute, str, getattrStr);
    var r := JoinWithPrefix(a, prefix, attribute, str, getattrStr) + JoinWithPrefix(b, prefix, attribute, str, getattrStr);
    assert |l| == |r|;
    forall i | 0 <= i < |l|
      ensures l[i] == r[i]
    {
      if i < |a| {
        assert (a + b)[i] == a[i];
      } else {
        assert (a + b)[i] == b[i - |a|];
      }
    }
  }

  lemma EmptyList<T>(prefix: string, attribute: Option<string>, str: T -> string, getattrStr: (T, string) -> string)
    ensures JoinWithPrefix([], prefix, attribute, str, getattrStr) == []
  {
  }

  /** With an empty prefix the filter is just the element strings. */
  lemma EmptyPrefix<T>(aList: seq<T>, str: T -> string, getattrStr: (T, string) -> string)
    ensures JoinWithPrefix(aList, "", None, str, getattrStr) == seq(|aList|, i requires 0 <= i < |aList| => str(aList[i]))
  {
    var r := JoinWithPrefix(aList, "", None, str, getattrStr);
    forall i | 0 <= i < |aList|
      ensures r[i] == str(aList[i])
    {
      assert "" + str(aList[i]) == str(aList[i]);
    }
  }
}
