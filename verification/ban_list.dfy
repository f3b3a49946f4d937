/** The ban list: attribute values the user has excluded, shown in the order
    they were banned. Both operations build a new list from the old one. */
module BanList {

  /** No value occurs twice. */
  predicate NoDuplicates(list: seq<string>)
  {
    forall i, j :: 0 <= i < j < |list| ==> list[i] != list[j]
  }

  /** `banProperty`: append `v` unless it is already banned. */
  function Ban(list: seq<string>, v: string): (r: seq<string>)
    ensures forall x :: x in r <==> x in list || x == v
    ensures |list| <= |r| <= |list| + 1 && r[..|list|] == list
    ensures NoDuplicates(list) ==> NoDuplicates(r)
    ensures v in list ==> r == list
  {
    if v in list then list else list + [v]
  }

  /** `unbanProperty`: keep every entry different from `v`, in order. */
  function Unban(list: seq<string>, v: string): (r: seq<string>)
    ensures forall x :: x in r <==> x in list && x != v
    ensures |r| <= |list|
  {
    if list == [] then []
    else (if list[0] == v then [] else [list[0]]) + Unban(list[1..], v)
  }

  /** Banning twice is banning once. */
  lemma BanIdempotent(list: seq<string>, v: string)
    ensures Ban(Ban(list, v), v) == Ban(list, v)
  {
  }

  /** Unban distributes over concatenation, so survivors keep their relative order. */
  lemma {:induction false} UnbanConcat(a: seq<string>, b: seq<string>, v: string)
    ensures Unban(a + b, v) == Unban(a, v) + Unban(b, v)
  {
    if a != [] {
      assert (a + b)[1..] == a[1..] + b;
      UnbanConcat(a[1..], b, v);
    } else {
      assert a + b == b;
    }
  }

  /** Unbanning a value that is not banned changes nothing. */
  lemma {:induction false} UnbanAbsent(list: seq<string>, v: string)
    requires v !in list
    ensures Unban(list, v) == list
  {
    if list != [] {
      UnbanAbsent(list[1..], v);
      assert [list[0]] + list[1..] == list;
    }
  }

  /** Unban removes exactly the occurrences of `v`: every other value keeps its multiplicity. */
  lemma {:induction false} UnbanCounts(list: seq<string>, v: string)
    ensures multiset(Unban(list, v)) == multiset(list)[v := 0]
  {
    if list != [] {
      UnbanCounts(list[1..], v);
      assert list == [list[0]] + list[1..];
    }
  }

  /** Unbanning is idempotent. */
  lemma UnbanIdempotent(list: seq<string>, v: string)
    ensures Unban(Unban(list, v), v) == Unban(list, v)
  {
    UnbanAbsent(Unban(list, v), v);
  }

  /** The ban list stays free of duplicates under unban. */
  lemma {:induction false} UnbanNoDuplicates(list: seq<string>, v: string)
    requires NoDuplicates(list)
    ensures NoDuplicates(Unban(list, v))
  {
    if list != [] {
      var tail := Unban(list[1..], v);
      UnbanNoDuplicates(list[1..], v);
      assert list[0] !in list[1..] by {
        forall j | 0 <= j < |list[1..]| ensures list[1..][j] != list[0] {
          assert list[1..][j] == list[j + 1];
        }
      }
      assert list[0] !in tail;
    }
  }

  /** Banning a fresh value and then unbanning it restores the list. */
  lemma BanUnbanRoundTrip(list: seq<string>, v: string)
    requires v !in list
    ensures Unban(Ban(list, v), v) == list
  {
    UnbanConcat(list, [v], v);
    UnbanAbsent(list, v);
    assert Unban([v], v) == [];
  }
}
