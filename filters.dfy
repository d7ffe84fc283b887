// FindNearbyBusinesses and FindGoodBusinesses: two passes over the first
// numProfiles records that store a distance and set the two flags in place.

module Filters {
  import opened Profiles

  /** One record after the distance pass: its distance stored, isNearby set by an inclusive bound. */
  function MarkNearby(p: Profile, sqrt: Sqrt, userLocX: real, userLocY: real, maxDist: real): Profile {
    var d := Distance(sqrt, userLocX, userLocY, p.locX, p.locY);
    p.(distMiles := d, isNearby := d <= maxDist)
  }

  /** The records after the distance pass over the first numProfiles of them. */
  function FindNearby(s: seq<Profile>, numProfiles: nat, sqrt: Sqrt,
                      userLocX: real, userLocY: real, maxDist: real): (r: seq<Profile>)
    ensures |r| == |s|
    ensures forall i :: 0 <= i < |s| && i < numProfiles ==>
              r[i].distMiles == Distance(sqrt, userLocX, userLocY, s[i].locX, s[i].locY) &&
              (r[i].isNearby <==> r[i].distMiles <= maxDist) &&
              SameData(r[i], s[i]) && r[i].isGood == s[i].isGood
    ensures forall i :: numProfiles <= i < |s| ==> r[i] == s[i]
  {
    seq(|s|, i requires 0 <= i < |s| =>
      if i < numProfiles then MarkNearby(s[i], sqrt, userLocX, userLocY, maxDist) else s[i])
  }

  /** One record after the rating pass: isGood set by an inclusive bound. */
  function MarkGood(p: Profile, minRating: real): Profile {
    p.(isGood := p.avgRating >= minRating)
  }

  /** The records after the rating pass over the first numProfiles of them. */
  function FindGood(s: seq<Profile>, numProfiles: nat, minRating: real): (r: seq<Profile>)
    ensures |r| == |s|
    ensures forall i :: 0 <= i < |s| && i < numProfiles ==>
              (r[i].isGood <==> s[i].avgRating >= minRating) &&
              SameData(r[i], s[i]) && r[i].distMiles == s[i].distMiles &&
              r[i].isNearby == s[i].isNearby
    ensures forall i :: numProfiles <= i < |s| ==> r[i] == s[i]
  {
    seq(|s|, i requires 0 <= i < |s| => if i < numProfiles then MarkGood(s[i], minRating) else s[i])
  }

  /** With a square root that maps non-negative numbers to non-negative numbers, every stored distance is non-negative. */
  lemma FindNearbyDistNonNeg(s: seq<Profile>, numProfiles: nat, sqrt: Sqrt,
                             userLocX: real, userLocY: real, maxDist: real)
    requires forall x :: x >= 0.0 ==> sqrt(x) >= 0.0
    ensures var r := FindNearby(s, numProfiles, sqrt, userLocX, userLocY, maxDist);
            forall i :: 0 <= i < |s| && i < numProfiles ==> r[i].distMiles >= 0.0
  {
  }

  /** The distance pass reads only locations, which it does not change: a second run changes nothing. */
  lemma FindNearbyIdempotent(s: seq<Profile>, numProfiles: nat, sqrt: Sqrt,
                             userLocX: real, userLocY: real, maxDist: real)
    ensures var once := FindNearby(s, numProfiles, sqrt, userLocX, userLocY, maxDist);
            FindNearby(once, numProfiles, sqrt, userLocX, userLocY, maxDist) == once
  {
  }

  /** The rating pass reads only ratings, which it does not change: a second run changes nothing. */
  lemma FindGoodIdempotent(s: seq<Profile>, numProfiles: nat, minRating: real)
    ensures FindGood(FindGood(s, numProfiles, minRating), numProfiles, minRating) ==
            FindGood(s, numProfiles, minRating)
  {
  }

  /** The two passes touch disjoint fields, so the order in which they run does not matter. */
  lemma FiltersCommute(s: seq<Profile>, numProfiles: nat, sqrt: Sqrt,
                       userLocX: real, userLocY: real, maxDist: real, minRating: real)
    ensures FindGood(FindNearby(s, numProfiles, sqrt, userLocX, userLocY, maxDist), numProfiles, minRating) ==
            FindNearby(FindGood(s, numProfiles, minRating), numProfiles, sqrt, userLocX, userLocY, maxDist)
  {
  }

  /** Stores each record's distance from the user and sets isNearby to whether it is at most maxDist. */
  method FindNearbyBusinesses(sporkProfiles: array<Profile>, numProfiles: nat, sqrt: Sqrt,
                              userLocX: real, userLocY: real, maxDist: real)
    requires numProfiles <= sporkProfiles.Length
    modifies sporkProfiles
    ensures sporkProfiles[..] == FindNearby(old(sporkProfiles[..]), numProfiles, sqrt, userLocX, userLocY, maxDist)
  {
    for i := 0 to numProfiles
      invariant forall j :: 0 <= j < i ==>
                  sporkProfiles[j] == MarkNearby(old(sporkProfiles[j]), sqrt, userLocX, userLocY, maxDist)
      invariant forall j :: i <= j < sporkProfiles.Length ==> sporkProfiles[j] == old(sporkProfiles[j])
    {
      var actDist := Distance(sqrt, userLocX, userLocY, sporkProfiles[i].locX, sporkProfiles[i].locY);
      sporkProfiles[i] := sporkProfiles[i].(distMiles := actDist);
      if actDist <= maxDist {
        sporkProfiles[i] := sporkProfiles[i].(isNearby := true);
      } else {
        sporkProfiles[i] := sporkProfiles[i].(isNearby := false);
      }
    }
  }

  /** Sets each record's isGood to whether its average rating is at least minRating. */
  method FindGoodBusinesses(sporkProfiles: array<Profile>, numProfiles: nat, minRating: real)
    requires numProfiles <= sporkProfiles.Length
    modifies sporkProfiles
    ensures sporkProfiles[..] == FindGood(old(sporkProfiles[..]), numProfiles, minRating)
  {
    for i := 0 to numProfiles
      invariant forall j :: 0 <= j < i ==> sporkProfiles[j] == MarkGood(old(sporkProfiles[j]), minRating)
      invariant forall j :: i <= j < sporkProfiles.Length ==> sporkProfiles[j] == old(sporkProfiles[j])
    {
      if sporkProfiles[i].avgRating >= minRating {
        sporkProfiles[i] := sporkProfiles[i].(isGood := true);
      } else {
        sporkProfiles[i] := sporkProfiles[i].(isGood := false);
      }
    }
  }
}
