// The line-acceptance loop of ReadSporkDataFromFile: reading text, sscanf's
// number conversion and the end-of-file test are outside the model; each input
// line arrives already split into the five fields sscanf may have assigned.

module Loader {
  import opened Profiles

  /**
   * What one sscanf call extracted from a line: each of the five fields
   * is present only if it was converted, and `trailing` says whether a
   * sixth non-blank character followed the fifth field.
   */
  datatype ScannedLine = ScannedLine(
    name: Option<string>,
    x: Option<real>,
    y: Option<real>,
    rate: Option<real>,
    ad: Option<int>,
    trailing: bool)

  /** The parse variables, which keep their values from one line to the next. */
  datatype ParseVars = ParseVars(name: string, x: real, y: real, rate: real, ad: int)

  /** The name the loader stores before reading; still seeing it ends the loop. */
  const SENTINEL: string := "empty"

  /** The parse variables before the first line: the name is the sentinel, the rest is whatever the caller had. */
  function Initial(x: real, y: real, rate: real, ad: int): ParseVars {
    ParseVars(SENTINEL, x, y, rate, ad)
  }

  /** sscanf's effect on the parse variables: supplied fields overwrite, missing ones are left alone. */
  function Scan(v: ParseVars, line: ScannedLine): ParseVars {
    ParseVars(line.name.GetOr(v.name), line.x.GetOr(v.x), line.y.GetOr(v.y),
              line.rate.GetOr(v.rate), line.ad.GetOr(v.ad))
  }

  /** The record the loader stores for an accepted line. */
  function NewRecord(v: ParseVars): Profile {
    Profile(v.name, v.x, v.y, 0.0, v.rate, v.ad, true, true)
  }

  /** The records loaded from `lines` when the parse variables start as `v`. */
  function Load(v: ParseVars, lines: seq<ScannedLine>): (recs: seq<Profile>)
    ensures |recs| <= |lines|
    ensures forall j :: 0 <= j < |recs| ==>
              recs[j].isNearby && recs[j].isGood && recs[j].distMiles == 0.0 &&
              recs[j].businessName != SENTINEL
    decreases |lines|
  {
    if lines == [] then []
    else
      var v' := Scan(v, lines[0]);
      if v'.name == SENTINEL then []
      else if lines[0].trailing then Load(v', lines[1..])
      else [NewRecord(v')] + Load(v', lines[1..])
  }

  /** The loop breaks on one of `lines`: after it, the name is still (or again) the sentinel. */
  predicate Halts(v: ParseVars, lines: seq<ScannedLine>)
    decreases |lines|
  {
    lines != [] &&
    (Scan(v, lines[0]).name == SENTINEL || Halts(Scan(v, lines[0]), lines[1..]))
  }

  /** Number of lines with nothing after the fifth field. */
  function CountClean(lines: seq<ScannedLine>): nat {
    if lines == [] then 0 else (if lines[0].trailing then 0 else 1) + CountClean(lines[1..])
  }

  /** The parse variables after the first k lines were scanned. */
  function VarsAfter(v: ParseVars, lines: seq<ScannedLine>, k: nat): ParseVars
    requires k <= |lines|
    decreases k
  {
    if k == 0 then v else VarsAfter(Scan(v, lines[0]), lines[1..], k - 1)
  }

  /** A record inherits from the previous one every field its own line did not supply. */
  predicate Inherits(prev: Profile, line: ScannedLine, next: Profile) {
    next.businessName == line.name.GetOr(prev.businessName) &&
    next.locX == line.x.GetOr(prev.locX) &&
    next.locY == line.y.GetOr(prev.locY) &&
    next.avgRating == line.rate.GetOr(prev.avgRating) &&
    next.adLevel == line.ad.GetOr(prev.adLevel)
  }

  lemma {:induction false} VarsAfterStep(v: ParseVars, lines: seq<ScannedLine>, k: nat)
    requires k < |lines|
    ensures VarsAfter(v, lines, k + 1) == Scan(VarsAfter(v, lines, k), lines[k])
    decreases k
  {
    if k > 0 {
      VarsAfterStep(Scan(v, lines[0]), lines[1..], k - 1);
    }
  }

  lemma {:induction false} CountCleanStep(lines: seq<ScannedLine>, k: nat)
    requires k < |lines|
    ensures CountClean(lines[..k + 1]) == CountClean(lines[..k]) + (if lines[k].trailing then 0 else 1)
    decreases k
  {
    if k > 0 {
      CountCleanStep(lines[1..], k - 1);
      assert lines[..k + 1][1..] == lines[1..][..k];
      assert lines[..k][1..] == lines[1..][..k - 1];
    }
  }

  lemma {:induction false} NoHaltOnPrefix(v: ParseVars, lines: seq<ScannedLine>, k: nat)
    requires k <= |lines| && !Halts(v, lines)
    ensures !Halts(v, lines[..k])
    decreases k
  {
    if k > 0 {
      NoHaltOnPrefix(Scan(v, lines[0]), lines[1..], k - 1);
      assert lines[..k][1..] == lines[1..][..k - 1];
    }
  }

  /** When the loop never breaks, exactly the lines without a sixth token are stored. */
  lemma {:induction false} LoadLength(v: ParseVars, lines: seq<ScannedLine>)
    requires !Halts(v, lines)
    ensures |Load(v, lines)| == CountClean(lines)
    decreases |lines|
  {
    if lines != [] {
      LoadLength(Scan(v, lines[0]), lines[1..]);
    }
  }

  /**
   * If the name is the sentinel right after line k is scanned, line k and
   * everything after it contribute nothing.
   */
  lemma {:induction false} LoadStopsAtSentinel(v: ParseVars, lines: seq<ScannedLine>, k: nat)
    requires k < |lines| && VarsAfter(v, lines, k + 1).name == SENTINEL
    ensures Load(v, lines) == Load(v, lines[..k])
    decreases k
  {
    var v' := Scan(v, lines[0]);
    if k == 0 {
      assert VarsAfter(v, lines, 1) == VarsAfter(v', lines[1..], 0) == v';
    } else if v'.name != SENTINEL {
      LoadStopsAtSentinel(v', lines[1..], k - 1);
      assert lines[..k][1..] == lines[1..][..k - 1];
    }
  }

  /**
   * A line that is reached and has nothing after its fifth field is stored,
   * built from the parse variables as they stand after that line, in the slot
   * after the records of the clean lines before it.
   */
  lemma {:induction false} LoadAt(v: ParseVars, lines: seq<ScannedLine>, k: nat)
    requires k < |lines| && !lines[k].trailing && !Halts(v, lines[..k + 1])
    ensures CountClean(lines[..k]) < |Load(v, lines)|
    ensures Load(v, lines)[CountClean(lines[..k])] == NewRecord(VarsAfter(v, lines, k + 1))
    decreases k
  {
    var v' := Scan(v, lines[0]);
    assert lines[..k + 1][0] == lines[0];
    if k == 0 {
      assert VarsAfter(v, lines, 1) == VarsAfter(v', lines[1..], 0) == v';
    } else {
      assert lines[..k + 1][1..] == lines[1..][..k];
      assert lines[..k][1..] == lines[1..][..k - 1];
      LoadAt(v', lines[1..], k - 1);
    }
  }

  /**
   * Two consecutive stored lines: the second record takes each field its line
   * did not supply from the first record.
   */
  lemma LoadInheritsFields(v: ParseVars, lines: seq<ScannedLine>, k: nat)
    requires k + 1 < |lines| && !lines[k].trailing && !lines[k + 1].trailing
    requires !Halts(v, lines[..k + 2])
    ensures CountClean(lines[..k]) + 1 < |Load(v, lines)|
    ensures Inherits(Load(v, lines)[CountClean(lines[..k])], lines[k + 1],
                     Load(v, lines)[CountClean(lines[..k]) + 1])
  {
    NoHaltOnPrefix(v, lines[..k + 2], k + 1);
    assert lines[..k + 2][..k + 1] == lines[..k + 1];
    LoadAt(v, lines, k);
    LoadAt(v, lines, k + 1);
    CountCleanStep(lines, k);
    VarsAfterStep(v, lines, k + 1);
  }

  /** Load from line k on: line k is scanned, then stops the loop, is skipped or is stored. */
  lemma LoadFrom(v: ParseVars, lines: seq<ScannedLine>, k: nat)
    requires k < |lines|
    ensures var scanned := Scan(v, lines[k]);
            Load(v, lines[k..]) ==
              if scanned.name == SENTINEL then []
              else if lines[k].trailing then Load(scanned, lines[k + 1..])
              else [NewRecord(scanned)] + Load(scanned, lines[k + 1..])
  {
    assert lines[k..][0] == lines[k] && lines[k..][1..] == lines[k + 1..];
  }

  /**
   * The loader over an already tokenised file. `fileOpened` says whether the
   * file could be opened; x0, y0, rate0 and ad0 are the values the parse
   * variables hold before any line supplies them.
   */
  method ReadSporkDataFromFile(sporkProfiles: array<Profile>, fileOpened: bool,
                               x0: real, y0: real, rate0: real, ad0: int,
                               lines: seq<ScannedLine>) returns (count: int)
    requires fileOpened ==> |Load(Initial(x0, y0, rate0, ad0), lines)| <= sporkProfiles.Length
    modifies sporkProfiles
    ensures !fileOpened ==> count == -1 && sporkProfiles[..] == old(sporkProfiles[..])
    ensures fileOpened ==> count == |Load(Initial(x0, y0, rate0, ad0), lines)|
    ensures fileOpened ==> sporkProfiles[..count] == Load(Initial(x0, y0, rate0, ad0), lines)
    ensures fileOpened ==> sporkProfiles[count..] == old(sporkProfiles[count..])
  {
    var vars := Initial(x0, y0, rate0, ad0);
    if !fileOpened {
      return -1;
    }
    assert |Load(vars, lines)| <= sporkProfiles.Length;
    ghost var all := Load(vars, lines);
    var i := 0;
    var k := 0;
    while k < |lines|
      invariant 0 <= k <= |lines|
      invariant 0 <= i <= |all| <= sporkProfiles.Length
      invariant Load(vars, lines[k..]) == all[i..]
      invariant forall j :: 0 <= j < i ==> sporkProfiles[j] == all[j]
      invariant forall j :: i <= j < sporkProfiles.Length ==> sporkProfiles[j] == old(sporkProfiles[j])
    {
      var scanned := Scan(vars, lines[k]);
      LoadFrom(vars, lines, k);
      if scanned.name == SENTINEL {
        break;
      }
      vars := scanned;
      if !lines[k].trailing {
        sporkProfiles[i] := NewRecord(vars);
        assert all[i] == NewRecord(vars) && all[i + 1..] == all[i..][1..];
        i := i + 1;
      }
      k := k + 1;
    }
    assert sporkProfiles[..i] == all;
    assert sporkProfiles[i..] == old(sporkProfiles[i..]);
    count := i;
  }
}
