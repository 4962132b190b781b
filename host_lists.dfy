/** The editable host lists of the settings dialog (`ObservableCollection<string>`
    in MyInternetChecker/ViewModels/HostsSettingsViewModel.cs and
    MyInternetChecker/HostsSettingsWindow.xaml.cs): `Remove` takes out the
    first equal element, `Add` appends. */
module HostLists {
  /** No element occurs twice. */
  predicate NoDuplicates(s: seq<string>) {
    forall i, j :: 0 <= i < j < |s| ==> s[i] != s[j]
  }

  /** `Collection<T>.Remove`: the list without its first element equal to
      `x`, or the list itself when there is none. */
  function RemoveFirst(s: seq<string>, x: string): (r: seq<string>)
    ensures |r| == if x in s then |s| - 1 else |s|
    ensures forall y :: y in r ==> y in s
    ensures x !in s ==> r == s
  {
    if s == [] then []
    else if s[0] == x then s[1..]
    else [s[0]] + RemoveFirst(s[1..], x)
  }

  // ---------------------------------------------------------------------------
  // Properties
  // ---------------------------------------------------------------------------

  /** `RemoveFirst` cuts the list at the first occurrence of `x`: everything
      before it and after it stays, in order. */
  lemma {:induction false} RemoveFirstSplits(s: seq<string>, x: string) returns (k: nat)
    requires x in s
    ensures k < |s| && s[k] == x && x !in s[..k]
    ensures RemoveFirst(s, x) == s[..k] + s[k + 1..]
  {
    if s[0] == x {
      k := 0;
    } else {
      var k' := RemoveFirstSplits(s[1..], x);
      k := k' + 1;
      assert s[..k] == [s[0]] + s[1..][..k'];
      assert s[k + 1..] == s[1..][k' + 1..];
    }
  }

  /** One occurrence fewer of `x`, the same count of every other element. */
  lemma {:induction false} RemoveFirstCounts(s: seq<string>, x: string)
    ensures multiset(RemoveFirst(s, x)) == multiset(s) - multiset{x}
  {
    if s != [] {
      assert s == [s[0]] + s[1..];
      if s[0] != x {
        RemoveFirstCounts(s[1..], x);
      }
    }
  }

  /** Removing from a duplicate-free list keeps it duplicate-free and leaves
      no occurrence of the removed host. */
  lemma {:induction false} RemoveFirstFromDistinct(s: seq<string>, x: string)
    requires NoDuplicates(s)
    ensures NoDuplicates(RemoveFirst(s, x)) && x !in RemoveFirst(s, x)
  {
    if s != [] {
      assert NoDuplicates(s[1..]);
      if s[0] == x {
        assert forall j :: 0 <= j < |s[1..]| ==> s[1..][j] == s[j + 1];
      } else {
        RemoveFirstFromDistinct(s[1..], x);
        assert s[0] !in s[1..];
      }
    }
  }

  /** Appending an element not yet present keeps a list duplicate-free. */
  lemma AppendFresh(s: seq<string>, x: string)
    requires NoDuplicates(s) && x !in s
    ensures NoDuplicates(s + [x])
  {
    forall i, j | 0 <= i < j < |s + [x]| ensures (s + [x])[i] != (s + [x])[j] {
      if j == |s| {
        assert s[i] in s;
      }
    }
  }
}
