// WriteSporkResultsToFile, reduced to which records it writes and in what
// order: the output is the sequence of array indices whose lines are printed.

module Writer {
  import opened Profiles

  /** The status the writer returns on every path. */
  const WRITE_OK: int := 0

  /** The status documented for an output file that cannot be opened; the writer never returns it. */
  const WRITE_FAILED: int := -1

  /** A record the writer prints: nearby, good and with an ad level from 0 to 2. */
  predicate Listed(p: Profile) {
    p.isNearby && p.isGood && p.adLevel >= 0 && p.adLevel <= 2
  }

  /** The indices below hi of listed records other than `skip`, from the lowest up. */
  function ListedBelow(s: seq<Profile>, hi: nat, skip: int): seq<int>
    requires hi <= |s|
  {
    if hi == 0 then []
    else ListedBelow(s, hi - 1, skip) + (if Listed(s[hi - 1]) && hi - 1 != skip then [hi - 1] else [])
  }

  /** The indices are strictly increasing. */
  predicate Increasing(r: seq<int>) {
    forall i, j :: 0 <= i < j < |r| ==> r[i] < r[j]
  }

  /** ListedBelow holds exactly the listed records below hi other than `skip`. */
  lemma {:induction false} ListedBelowMembers(s: seq<Profile>, hi: nat, skip: int)
    requires hi <= |s|
    ensures forall x :: x in ListedBelow(s, hi, skip) <==> 0 <= x < hi && Listed(s[x]) && x != skip
  {
    if hi > 0 {
      ListedBelowMembers(s, hi - 1, skip);
    }
  }

  /** ListedBelow is strictly increasing: array order is kept and nothing repeats. */
  lemma {:induction false} ListedBelowIncreasing(s: seq<Profile>, hi: nat, skip: int)
    requires hi <= |s|
    ensures Increasing(ListedBelow(s, hi, skip))
  {
    if hi > 0 {
      ListedBelowIncreasing(s, hi - 1, skip);
      ListedBelowMembers(s, hi - 1, skip);
      var before := ListedBelow(s, hi - 1, skip);
      var tail := if Listed(s[hi - 1]) && hi - 1 != skip then [hi - 1] else [];
      var r := before + tail;
      assert r == ListedBelow(s, hi, skip);
      forall i, j | 0 <= i < j < |r| ensures r[i] < r[j] {
        assert i < |before| && r[i] == before[i] && before[i] in before;
        if j < |before| {
          assert r[j] == before[j];
        } else {
          assert r[j] == hi - 1;
        }
      }
    }
  }

  /**
   * When record 0 is listed, leaving out no index lists record 0 followed by
   * what leaving out index 0 lists.
   */
  lemma {:induction false} ListedBelowFromZero(s: seq<Profile>, hi: nat)
    requires 1 <= hi <= |s| && Listed(s[0])
    ensures ListedBelow(s, hi, -1) == [0] + ListedBelow(s, hi, 0)
  {
    if hi > 1 {
      ListedBelowFromZero(s, hi - 1);
    }
  }

  /**
   * The indices the writer prints for numProfiles records and the given
   * sponsor: nothing for an empty array, otherwise the sponsor first (unless
   * it is -1) and then every other listed record in array order.
   */
  function WriteOrder(s: seq<Profile>, numProfiles: nat, sponsor: int): seq<int>
    requires numProfiles <= |s|
  {
    if numProfiles == 0 then []
    else (if sponsor != -1 then [sponsor] else []) + ListedBelow(s, numProfiles, sponsor)
  }

  /**
   * Nothing is printed for an empty array; otherwise a sponsor other than -1
   * comes first and exactly once, and apart from it exactly the listed records
   * below numProfiles are printed.
   */
  lemma WriteOrderMembers(s: seq<Profile>, numProfiles: nat, sponsor: int)
    requires numProfiles <= |s|
    ensures var r := WriteOrder(s, numProfiles, sponsor);
            (numProfiles == 0 ==> r == []) &&
            (numProfiles > 0 && sponsor != -1 ==> |r| > 0 && r[0] == sponsor && multiset(r)[sponsor] == 1) &&
            (forall x :: x in r <==>
                           (numProfiles > 0 && sponsor != -1 && x == sponsor) ||
                           (0 <= x < numProfiles && Listed(s[x])))
  {
    if numProfiles > 0 {
      ListedBelowMembers(s, numProfiles, sponsor);
      var rest := ListedBelow(s, numProfiles, sponsor);
      assert sponsor !in rest;
      if sponsor != -1 {
        assert multiset([sponsor] + rest)[sponsor] == 1 + multiset(rest)[sponsor];
      }
    }
  }

  /** An increasing run, optionally headed by an index it does not contain, is sorted after that head and has no repeats. */
  lemma HeadThenIncreasing(head: seq<int>, rest: seq<int>, sponsor: int)
    requires Increasing(rest) && sponsor !in rest
    requires head == [] || head == [sponsor]
    ensures var r := head + rest;
            (forall i, j :: 0 <= i < j < |r| && r[i] != sponsor ==> r[i] < r[j]) &&
            (forall i, j :: 0 <= i < j < |r| ==> r[i] != r[j])
  {
    var r := head + rest;
    var h := |head|;
    forall i, j | 0 <= i < j < |r| ensures r[i] != sponsor ==> r[i] < r[j] {
      assert r[j] == rest[j - h];
      if i >= h {
        assert r[i] == rest[i - h];
      }
    }
    forall i, j | 0 <= i < j < |r| ensures r[i] != r[j] {
      assert r[j] == rest[j - h] && r[j] in rest;
      if i >= h {
        assert r[i] == rest[i - h];
      }
    }
  }

  /**
   * The records after the sponsor come in array order, and no index is
   * printed twice.
   */
  lemma WriteOrderIncreasing(s: seq<Profile>, numProfiles: nat, sponsor: int)
    requires numProfiles <= |s|
    ensures var r := WriteOrder(s, numProfiles, sponsor);
            (forall i, j :: 0 <= i < j < |r| && r[i] != sponsor ==> r[i] < r[j]) &&
            (forall i, j :: 0 <= i < j < |r| ==> r[i] != r[j])
  {
    if numProfiles > 0 {
      ListedBelowIncreasing(s, numProfiles, sponsor);
      ListedBelowMembers(s, numProfiles, sponsor);
      var rest := ListedBelow(s, numProfiles, sponsor);
      var head := if sponsor != -1 then [sponsor] else [];
      assert sponsor !in rest;
      HeadThenIncreasing(head, rest, sponsor);
    }
  }

  /**
   * Prints the sponsor's line first, then the line of every other listed
   * record; returns the status and the indices of the printed records.
   */
  method WriteSporkResultsToFile(sporkProfiles: array<Profile>, numProfiles: nat, maxSponsorIndex: int)
    returns (status: int, emitted: seq<int>)
    requires numProfiles <= sporkProfiles.Length
    requires numProfiles == 0 || maxSponsorIndex == -1 || 0 <= maxSponsorIndex < sporkProfiles.Length
    ensures status == WRITE_OK
    ensures emitted == WriteOrder(sporkProfiles[..], numProfiles, maxSponsorIndex)
  {
    emitted := [];
    var i := 0;
    if numProfiles == 0 {
      return WRITE_OK, emitted;
    }
    if maxSponsorIndex != -1 {
      emitted := emitted + [maxSponsorIndex];
    }
    ghost var head := emitted;
    ghost var s := sporkProfiles[..];
    while i < numProfiles
      invariant 0 <= i <= numProfiles
      invariant emitted == head + ListedBelow(s, i, maxSponsorIndex)
    {
      var p := sporkProfiles[i];
      assert p == s[i];
      if p.isNearby && p.isGood && p.adLevel >= 0 && p.adLevel <= 2 {
        if i != maxSponsorIndex {
          emitted := emitted + [i];
          assert emitted == head + (ListedBelow(s, i, maxSponsorIndex) + [i]);
        }
      }
      i := i + 1;
    }
    assert emitted == WriteOrder(s, numProfiles, maxSponsorIndex);
    return WRITE_OK, emitted;
  }
}
