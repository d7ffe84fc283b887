// GetIndexMaxSponsor: a running-maximum scan for the nearby, good record with
// the highest ad level, as written (index 0 doubles as "none") and corrected.

module Sponsor {
  import opened Profiles

  /** A record the scan may pick: nearby, good and with an ad level of 1 or 2. */
  predicate Sponsorable(p: Profile) {
    p.isGood && p.isNearby && 0 < p.adLevel <= 2
  }

  /** No record below n may be picked. */
  ghost predicate NoneSponsorable(s: seq<Profile>, n: nat)
    requires n <= |s|
  {
    forall j :: 0 <= j < n ==> !Sponsorable(s[j])
  }

  /**
   * k is the sponsor the header comment describes: a sponsorable record below n
   * with the highest ad level among them, and the first such one.
   */
  ghost predicate IsFirstMax(s: seq<Profile>, n: nat, k: int)
    requires n <= |s|
  {
    0 <= k < n && Sponsorable(s[k]) &&
    (forall j :: 0 <= j < n && Sponsorable(s[j]) ==> s[j].adLevel <= s[k].adLevel) &&
    (forall j :: 0 <= j < k && Sponsorable(s[j]) ==> s[j].adLevel < s[k].adLevel)
  }

  /** The scan's running pair: the index picked so far and its ad level. */
  datatype Best = Best(temp: int, level: int)

  /** The running pair after the records below hi were visited, starting from (0, 0). */
  function ScanBest(s: seq<Profile>, hi: nat): Best
    requires hi <= |s|
  {
    if hi == 0 then Best(0, 0)
    else
      var b := ScanBest(s, hi - 1);
      var p := s[hi - 1];
      if p.isGood && p.isNearby && p.adLevel > 0 && p.adLevel <= 2 && p.adLevel > b.level
      then Best(hi - 1, p.adLevel)
      else b
  }

  /**
   * What the scan has found so far: a level of 0 means nothing sponsorable was
   * seen (and the index is still 0), otherwise the index is the first maximum.
   */
  lemma {:induction false} ScanBestFindsFirstMax(s: seq<Profile>, hi: nat)
    requires hi <= |s|
    ensures var b := ScanBest(s, hi);
            (b.level == 0 ==> b.temp == 0 && NoneSponsorable(s, hi)) &&
            (b.level != 0 ==> IsFirstMax(s, hi, b.temp) && s[b.temp].adLevel == b.level)
  {
    if hi > 0 {
      ScanBestFindsFirstMax(s, hi - 1);
    }
  }

  /** Two first maxima are the same index. */
  lemma FirstMaxUnique(s: seq<Profile>, n: nat, k1: int, k2: int)
    requires n <= |s| && IsFirstMax(s, n, k1) && IsFirstMax(s, n, k2)
    ensures k1 == k2
  {
  }

  /** The selector as written: the scan's index, with 0 reported as -1. */
  function MaxSponsor(s: seq<Profile>, n: nat): int
    requires n <= |s|
  {
    var b := ScanBest(s, n);
    if b.temp == 0 then -1 else b.temp
  }

  /**
   * The selector as written returns -1 or an index from 1 up, which is then the
   * first maximum; it returns -1 exactly when nothing qualifies or the first
   * maximum is record 0.
   */
  lemma MaxSponsorSpec(s: seq<Profile>, n: nat)
    requires n <= |s|
    ensures var r := MaxSponsor(s, n);
            (r == -1 || 1 <= r < n) &&
            (r != -1 ==> IsFirstMax(s, n, r)) &&
            (r == -1 <==> NoneSponsorable(s, n) || IsFirstMax(s, n, 0))
  {
    ScanBestFindsFirstMax(s, n);
    var b := ScanBest(s, n);
    if b.level != 0 && IsFirstMax(s, n, 0) {
      FirstMaxUnique(s, n, 0, b.temp);
    }
  }

  /** The selector as intended: the scan's index when something was found, -1 otherwise. */
  function BestSponsor(s: seq<Profile>, n: nat): (r: int)
    requires n <= |s|
    ensures r == -1 <==> NoneSponsorable(s, n)
    ensures r != -1 ==> IsFirstMax(s, n, r)
  {
    ScanBestFindsFirstMax(s, n);
    var b := ScanBest(s, n);
    if b.level == 0 then -1 else b.temp
  }

  /** A single qualifying record at index 0: it is the first maximum, yet the selector reports none. */
  lemma IndexZeroSponsorReportedAsNone()
    ensures var s := [Profile("Cafe", 1.0, 1.0, 1.41, 4.5, 2, true, true)];
            IsFirstMax(s, 1, 0) && MaxSponsor(s, 1) == -1 && BestSponsor(s, 1) == 0
  {
  }

  /** Two sponsorable records of level 2 at indices 3 and 7 and nothing else sponsorable: 3 wins. */
  lemma TieGoesToFirst(s: seq<Profile>)
    requires |s| == 8
    requires Sponsorable(s[3]) && s[3].adLevel == 2 && Sponsorable(s[7]) && s[7].adLevel == 2
    requires forall j :: 0 <= j < 8 && j != 3 && j != 7 ==> !Sponsorable(s[j])
    ensures MaxSponsor(s, 8) == 3
  {
    MaxSponsorSpec(s, 8);
    assert IsFirstMax(s, 8, 3);
    FirstMaxUnique(s, 8, 3, MaxSponsor(s, 8));
  }

  /** Returns the index of the first nearby, good record of highest ad level, with index 0 reported as -1. */
  method GetIndexMaxSponsor(sporkProfiles: array<Profile>, numProfiles: nat) returns (index: int)
    requires numProfiles <= sporkProfiles.Length
    ensures index == MaxSponsor(sporkProfiles[..], numProfiles)
    ensures index == -1 || 1 <= index < numProfiles
    ensures index != -1 ==> IsFirstMax(sporkProfiles[..], numProfiles, index)
    ensures index == -1 <==> NoneSponsorable(sporkProfiles[..], numProfiles) ||
                             IsFirstMax(sporkProfiles[..], numProfiles, 0)
  {
    var temp := 0;
    var tempAdLevel := 0;
    for i := 0 to numProfiles
      invariant Best(temp, tempAdLevel) == ScanBest(sporkProfiles[..], i)
    {
      var p := sporkProfiles[i];
      if p.isGood && p.isNearby {
        if p.adLevel > 0 && p.adLevel <= 2 && p.adLevel > tempAdLevel {
          tempAdLevel := p.adLevel;
          temp := i;
        }
      }
    }
    MaxSponsorSpec(sporkProfiles[..], numProfiles);
    if temp == 0 {
      return -1;
    } else {
      return temp;
    }
  }

  /** The same scan with "nothing found yet" kept apart from index 0. */
  method GetIndexMaxSponsorFixed(sporkProfiles: array<Profile>, numProfiles: nat) returns (index: int)
    requires numProfiles <= sporkProfiles.Length
    ensures index == BestSponsor(sporkProfiles[..], numProfiles)
    ensures index == -1 <==> NoneSponsorable(sporkProfiles[..], numProfiles)
    ensures index != -1 ==> IsFirstMax(sporkProfiles[..], numProfiles, index)
  {
    index := -1;
    var tempAdLevel := 0;
    for i := 0 to numProfiles
      invariant tempAdLevel == ScanBest(sporkProfiles[..], i).level
      invariant index == if tempAdLevel == 0 then -1 else ScanBest(sporkProfiles[..], i).temp
    {
      var p := sporkProfiles[i];
      if p.isGood && p.isNearby {
        if p.adLevel > 0 && p.adLevel <= 2 && p.adLevel > tempAdLevel {
          tempAdLevel := p.adLevel;
          index := i;
        }
      }
    }
  }
}
