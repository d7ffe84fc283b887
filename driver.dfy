// The order in which main runs the stages, and what the whole run prints.
// Argument checking and the conversion of the command-line numbers are not
// modelled: the driver receives the numbers already converted.

module Driver {
  import opened Profiles
  import opened Loader
  import opened Filters
  import opened Sponsor
  import opened Writer

  const EXIT_SUCCESS: int := 0
  const EXIT_FAILURE: int := 1

  /** The records after the distance pass and then the rating pass. */
  function Filtered(s: seq<Profile>, numProfiles: nat, sqrt: Sqrt, userLocX: real, userLocY: real,
                    maxDist: real, minRating: real): seq<Profile>
    requires numProfiles <= |s|
  {
    FindGood(FindNearby(s, numProfiles, sqrt, userLocX, userLocY, maxDist), numProfiles, minRating)
  }

  /** The indices printed for an array whose first numProfiles records were loaded. */
  function Output(s: seq<Profile>, numProfiles: nat, sqrt: Sqrt, userLocX: real, userLocY: real,
                  maxDist: real, minRating: real): seq<int>
    requires numProfiles <= |s|
  {
    var f := Filtered(s, numProfiles, sqrt, userLocX, userLocY, maxDist, minRating);
    WriteOrder(f, numProfiles, MaxSponsor(f, numProfiles))
  }

  /**
   * The index-0 defect of the selector never shows in the output: when the
   * first maximum is record 0, that record is printed first anyway, in array order.
   */
  lemma SponsorDefectInvisible(s: seq<Profile>, numProfiles: nat)
    requires numProfiles <= |s|
    ensures WriteOrder(s, numProfiles, MaxSponsor(s, numProfiles)) ==
            WriteOrder(s, numProfiles, BestSponsor(s, numProfiles))
  {
    MaxSponsorSpec(s, numProfiles);
    var written := MaxSponsor(s, numProfiles);
    var fixed := BestSponsor(s, numProfiles);
    if written != fixed {
      FirstMaxUnique(s, numProfiles, 0, fixed);
      assert written == -1 && fixed == 0;
      ListedBelowFromZero(s, numProfiles);
    }
  }

  /**
   * After loading, for any records in the array: the run prints exactly the
   * loaded records within maxDist of the user, rated at least minRating and
   * with an ad level from 0 to 2; nothing twice; the selected sponsor first
   * and once, the rest in load order; and the same as with the corrected selector.
   */
  lemma OutputSpec(s: seq<Profile>, numProfiles: nat, sqrt: Sqrt, userLocX: real, userLocY: real,
                   maxDist: real, minRating: real)
    requires numProfiles <= |s|
    ensures var r := Output(s, numProfiles, sqrt, userLocX, userLocY, maxDist, minRating);
            forall x :: x in r <==>
              0 <= x < numProfiles &&
              Distance(sqrt, userLocX, userLocY, s[x].locX, s[x].locY) <= maxDist &&
              s[x].avgRating >= minRating && 0 <= s[x].adLevel <= 2
    ensures var r := Output(s, numProfiles, sqrt, userLocX, userLocY, maxDist, minRating);
            forall i, j :: 0 <= i < j < |r| ==> r[i] != r[j]
    ensures var f := Filtered(s, numProfiles, sqrt, userLocX, userLocY, maxDist, minRating);
            var sponsor := MaxSponsor(f, numProfiles);
            var r := Output(s, numProfiles, sqrt, userLocX, userLocY, maxDist, minRating);
            forall i, j :: 0 <= i < j < |r| && r[i] != sponsor ==> r[i] < r[j]
    ensures var f := Filtered(s, numProfiles, sqrt, userLocX, userLocY, maxDist, minRating);
            var sponsor := MaxSponsor(f, numProfiles);
            var r := Output(s, numProfiles, sqrt, userLocX, userLocY, maxDist, minRating);
            sponsor != -1 ==> |r| > 0 && r[0] == sponsor && multiset(r)[sponsor] == 1
    ensures var f := Filtered(s, numProfiles, sqrt, userLocX, userLocY, maxDist, minRating);
            Output(s, numProfiles, sqrt, userLocX, userLocY, maxDist, minRating) ==
            WriteOrder(f, numProfiles, BestSponsor(f, numProfiles))
  {
    var near := FindNearby(s, numProfiles, sqrt, userLocX, userLocY, maxDist);
    var f := Filtered(s, numProfiles, sqrt, userLocX, userLocY, maxDist, minRating);
    var sponsor := MaxSponsor(f, numProfiles);
    var r := Output(s, numProfiles, sqrt, userLocX, userLocY, maxDist, minRating);
    MaxSponsorSpec(f, numProfiles);
    WriteOrderMembers(f, numProfiles, sponsor);
    WriteOrderIncreasing(f, numProfiles, sponsor);
    SponsorDefectInvisible(f, numProfiles);
    forall x ensures x in r <==>
                       0 <= x < numProfiles &&
                       Distance(sqrt, userLocX, userLocY, s[x].locX, s[x].locY) <= maxDist &&
                       s[x].avgRating >= minRating && 0 <= s[x].adLevel <= 2
    {
      if 0 <= x < numProfiles {
        assert f[x].isNearby == near[x].isNearby && f[x].adLevel == s[x].adLevel;
        assert f[x].isGood <==> s[x].avgRating >= minRating;
      }
      if x == sponsor && sponsor != -1 {
        assert Sponsorable(f[x]);
      }
    }
  }

  /** The two records of the example below, as the loader stores them. */
  function CafeRecord(): Profile { Profile("Cafe", 1.0, 1.0, 0.0, 4.5, 2, true, true) }
  function DinerRecord(): Profile { Profile("Diner", 10.0, 10.0, 0.0, 3.0, 1, true, true) }

  /**
   * Loading "Cafe 1.0 1.0 4.50 2" and "Diner 10.0 10.0 3.00 1". For a file
   * whose last line ends in a newline the loop scans that line a second time
   * at the end of the file, so Diner is stored twice.
   */
  lemma CafeDinerLoad(x0: real, y0: real, rate0: real, ad0: int)
    ensures var diner := ScannedLine(Some("Diner"), Some(10.0), Some(10.0), Some(3.0), Some(1), false);
            var cafe := ScannedLine(Some("Cafe"), Some(1.0), Some(1.0), Some(4.5), Some(2), false);
            Load(Initial(x0, y0, rate0, ad0), [cafe, diner, diner]) == [CafeRecord(), DinerRecord(), DinerRecord()]
  {
    var diner := ScannedLine(Some("Diner"), Some(10.0), Some(10.0), Some(3.0), Some(1), false);
    var cafe := ScannedLine(Some("Cafe"), Some(1.0), Some(1.0), Some(4.5), Some(2), false);
    var v1 := Scan(Initial(x0, y0, rate0, ad0), cafe);
    var v2 := Scan(v1, diner);
    assert [cafe, diner, diner][1..] == [diner, diner] && [diner, diner][1..] == [diner] && [diner][1..] == [];
    assert Scan(v2, diner) == v2;
    assert Load(v2, [diner]) == [DinerRecord()];
    assert Load(v1, [diner, diner]) == [DinerRecord(), DinerRecord()];
  }

  /**
   * With the user at the origin, maxDist 2 and minRating 4, only Cafe is
   * printed: Diner is too far and rated too low. Cafe is also the first
   * maximum at index 0, so the selector reports no sponsor.
   */
  lemma CafeDinerOutput(sqrt: Sqrt)
    requires sqrt(2.0) <= 2.0
    ensures var recs := [CafeRecord(), DinerRecord(), DinerRecord()];
            MaxSponsor(Filtered(recs, 3, sqrt, 0.0, 0.0, 2.0, 4.0), 3) == -1 &&
            Output(recs, 3, sqrt, 0.0, 0.0, 2.0, 4.0) == [0]
  {
    var recs := [CafeRecord(), DinerRecord(), DinerRecord()];
    var f := Filtered(recs, 3, sqrt, 0.0, 0.0, 2.0, 4.0);
    assert SquaredDistance(0.0, 0.0, 1.0, 1.0) == 2.0;
    assert f[0].isNearby && f[0].isGood && f[0].adLevel == 2;
    assert !f[1].isGood && !f[2].isGood;
    assert ScanBest(f, 1) == Best(0, 2);
    assert ScanBest(f, 2) == Best(0, 2);
    assert ScanBest(f, 3) == Best(0, 2);
    assert ListedBelow(f, 1, -1) == [0];
    assert ListedBelow(f, 2, -1) == [0];
    assert ListedBelow(f, 3, -1) == [0];
  }

  /**
   * The stages in main's order. `inputOpened` says whether the input file
   * could be opened; the other inputs are the loader's and the converted
   * command-line numbers.
   */
  method RunSpork(sporkProfiles: array<Profile>, inputOpened: bool,
                  x0: real, y0: real, rate0: real, ad0: int, lines: seq<ScannedLine>,
                  sqrt: Sqrt, userLocX: real, userLocY: real, maxDistMiles: real, minAvgRating: real)
    returns (exitCode: int, emitted: seq<int>)
    requires sporkProfiles.Length == MAX_SPORK_PROFILES
    requires inputOpened ==> |Load(Initial(x0, y0, rate0, ad0), lines)| <= MAX_SPORK_PROFILES
    modifies sporkProfiles
    ensures !inputOpened ==> exitCode == EXIT_FAILURE && emitted == [] &&
                             sporkProfiles[..] == old(sporkProfiles[..])
    ensures inputOpened ==>
              var recs := Load(Initial(x0, y0, rate0, ad0), lines);
              exitCode == EXIT_SUCCESS &&
              emitted == Output(recs + old(sporkProfiles[..])[|recs|..], |recs|, sqrt,
                                userLocX, userLocY, maxDistMiles, minAvgRating)
  {
    ghost var before := sporkProfiles[..];
    var numProfiles := ReadSporkDataFromFile(sporkProfiles, inputOpened, x0, y0, rate0, ad0, lines);
    if numProfiles == -1 {
      return EXIT_FAILURE, [];
    }
    ghost var loaded := sporkProfiles[..];
    assert loaded == sporkProfiles[..numProfiles] + sporkProfiles[numProfiles..];
    FindNearbyBusinesses(sporkProfiles, numProfiles, sqrt, userLocX, userLocY, maxDistMiles);
    FindGoodBusinesses(sporkProfiles, numProfiles, minAvgRating);
    var maxSponsorIndex := GetIndexMaxSponsor(sporkProfiles, numProfiles);
    var status;
    status, emitted := WriteSporkResultsToFile(sporkProfiles, numProfiles, maxSponsorIndex);
    exitCode := if status == WRITE_FAILED then EXIT_FAILURE else EXIT_SUCCESS;
  }
}
