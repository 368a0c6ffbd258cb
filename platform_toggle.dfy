/**
 * The selection toggle of `usePlatformSelection`: a click on a platform adds it to
 * the selected list or removes it, and at most four platforms can be selected.
 */
module PlatformToggle {
  import opened Common

  /** The largest number of platforms a user may select. */
  const MaxSelected: nat := 4

  /** The new selection and whether the "up to 4 platforms" error was reported. */
  datatype ToggleResult = ToggleResult(selected: seq<PlatformId>, capReached: bool)

  ghost predicate NoDuplicates(s: seq<PlatformId>)
  {
    forall i, j :: 0 <= i < j < |s| ==> s[i] != s[j]
  }

  /** `prev.filter(x => x !== id)`: every occurrence of `id` is dropped. */
  function Without(s: seq<PlatformId>, id: PlatformId): (r: seq<PlatformId>)
    ensures id !in r
    ensures multiset(r) == multiset(s)[id := 0]
    ensures |r| <= |s| && (id in s ==> |r| < |s|)
  {
    if s == [] then []
    else
      assert s == [s[0]] + s[1..];
      if s[0] == id then Without(s[1..], id)
      else [s[0]] + Without(s[1..], id)
  }

  /** The updater handed to `setSelectedPlatforms` by `togglePlatform`. */
  function Toggle(prev: seq<PlatformId>, id: PlatformId): (r: ToggleResult)
    ensures r.capReached <==> id !in prev && |prev| >= MaxSelected
    ensures r.capReached ==> r.selected == prev
    ensures id in prev ==> id !in r.selected && multiset(r.selected) == multiset(prev)[id := 0]
    ensures id !in prev && !r.capReached ==> r.selected == prev + [id]
  {
    if id in prev then ToggleResult(Without(prev, id), false)
    else if |prev| >= MaxSelected then ToggleResult(prev, true)
    else ToggleResult(prev + [id], false)
  }

  /** Removing an id that is not there returns the list itself. */
  lemma {:induction false} WithoutAbsent(s: seq<PlatformId>, id: PlatformId)
    requires id !in s
    ensures Without(s, id) == s
  {
    if s != [] {
      WithoutAbsent(s[1..], id);
      assert s == [s[0]] + s[1..];
    }
  }

  /** Filtering distributes over concatenation, so the kept ids stay in their order. */
  lemma {:induction false} WithoutAppend(a: seq<PlatformId>, b: seq<PlatformId>, id: PlatformId)
    ensures Without(a + b, id) == Without(a, id) + Without(b, id)
  {
    if a == [] {
      assert a + b == b;
    } else {
      assert (a + b)[1..] == a[1..] + b;
      WithoutAppend(a[1..], b, id);
    }
  }

  /** The kept ids are exactly the other ids of the list. */
  lemma WithoutMembers(s: seq<PlatformId>, id: PlatformId, x: PlatformId)
    ensures x in Without(s, id) <==> x in s && x != id
  {
    assert x in Without(s, id) <==> multiset(Without(s, id))[x] > 0;
    assert x in s <==> multiset(s)[x] > 0;
  }

  /** A duplicate-free list has each id at most once in its multiset, and conversely. */
  lemma {:induction false} NoDuplicatesMultiset(s: seq<PlatformId>)
    ensures NoDuplicates(s) <==> forall x :: multiset(s)[x] <= 1
  {
    if s != [] {
      NoDuplicatesMultiset(s[1..]);
      assert s == [s[0]] + s[1..];
      if NoDuplicates(s) {
        assert NoDuplicates(s[1..]) by {
          forall i, j | 0 <= i < j < |s[1..]| ensures s[1..][i] != s[1..][j] {
            assert s[1..][i] == s[i + 1] && s[1..][j] == s[j + 1];
          }
        }
        assert s[0] !in s[1..] by {
          forall k | 0 <= k < |s[1..]| ensures s[1..][k] != s[0] {
            assert s[1..][k] == s[k + 1];
          }
        }
      } else {
        var i, j :| 0 <= i < j < |s| && s[i] == s[j];
        if i == 0 {
          assert s[j] == s[1..][j - 1];
          assert multiset(s)[s[0]] >= 2;
        } else {
          assert s[1..][i - 1] == s[i] && s[1..][j - 1] == s[j];
          assert !NoDuplicates(s[1..]);
          var x :| multiset(s[1..])[x] > 1;
          assert multiset(s)[x] > 1;
        }
      }
    }
  }

  /** Toggling a selected id drops it and keeps the ids before and after it in their order. */
  lemma ToggleRemovesInPlace(before: seq<PlatformId>, id: PlatformId, after: seq<PlatformId>)
    requires id !in before && id !in after
    ensures Toggle(before + [id] + after, id) == ToggleResult(before + after, false)
  {
    var prev := before + [id] + after;
    assert prev[|before|] == id;
    assert Without([id], id) == [];
    WithoutAppend(before, [id], id);
    WithoutAbsent(before, id);
    assert Without(before + [id], id) == before;
    WithoutAppend(before + [id], after, id);
    WithoutAbsent(after, id);
    assert Without(prev, id) == before + after;
  }

  /** From a selection of at most four ids, a toggle keeps at most four. */
  lemma ToggleKeepsCap(prev: seq<PlatformId>, id: PlatformId)
    requires |prev| <= MaxSelected
    ensures |Toggle(prev, id).selected| <= MaxSelected
  {
  }

  /** From a duplicate-free selection, a toggle keeps it duplicate-free. */
  lemma ToggleKeepsNoDuplicates(prev: seq<PlatformId>, id: PlatformId)
    requires NoDuplicates(prev)
    ensures NoDuplicates(Toggle(prev, id).selected)
  {
    var r := Toggle(prev, id).selected;
    NoDuplicatesMultiset(prev);
    NoDuplicatesMultiset(r);
    if id !in prev && |prev| < MaxSelected {
      forall x ensures multiset(r)[x] <= 1 {
        assert multiset(r) == multiset(prev) + multiset{id};
        assert multiset(prev)[id] == 0;
      }
    }
  }

  /**
   * Toggling the same id twice: an absent id leaves exactly the original list
   * (whether or not the cap stopped the first toggle); a present id comes back
   * (at the end) so the set of selected ids is the original one.
   */
  lemma ToggleTwice(prev: seq<PlatformId>, id: PlatformId)
    requires |prev| <= MaxSelected
    ensures id !in prev ==> Toggle(Toggle(prev, id).selected, id).selected == prev
    ensures (set x | x in Toggle(Toggle(prev, id).selected, id).selected) == (set x | x in prev)
  {
    var once := Toggle(prev, id).selected;
    var twice := Toggle(once, id).selected;
    if id !in prev {
      if |prev| < MaxSelected {
        WithoutAppend(prev, [id], id);
        WithoutAbsent(prev, id);
        assert Without([id], id) == [];
      }
    } else {
      assert twice == Without(prev, id) + [id];
      forall x ensures x in twice <==> x in prev {
        WithoutMembers(prev, id, x);
      }
    }
  }
}
