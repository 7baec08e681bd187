/**
 * What the track queries of mp4.js compute, as functions of the root box:
 * the number of `trak` children of `moov`, the type of the i-th track, the
 * resolution and the volume picked by the volume heuristic, and the two
 * operands of the duration. The loops that compute them are the methods of
 * class Mp4; the lemmas here say what the functions mean.
 */
module TrackQueries {
  import opened BoxTree
  import opened BoxSearch

  /**
   * Why a query fails. Both are a TypeError in the source: a dereference of
   * the `undefined` that `_getBox` returns when it finds nothing, or of the
   * `null` that `tkhd` keeps when the loop selects no track.
   */
  datatype Failure = MissingBox(boxType: string) | NoTrackSelected

  datatype Result<+T> = Ok(value: T) | Err(error: Failure)

  datatype TrackType = Audio | Video

  /** Which `tkhd.volume` test ends the scan over the tracks. */
  datatype StopRule =
    | VolumeIsZero   // `tkhd.volume === 0` (getResolution)
    | VolumeIsOne    // `tkhd.volume == 1` (getVolume)

  predicate Stops(rule: StopRule, v: Value)
    ensures Stops(rule, v) <==> v == Num(if rule == VolumeIsZero then 0.0 else 1.0)
    ensures Stops(rule, v) ==> v.Num?
  {
    match rule
    case VolumeIsZero => IsNumber(v, 0.0)
    case VolumeIsOne => IsNumber(v, 1.0)
  }

  // ---------------------------------------------------------------- counting

  /** Number of `trak` boxes in `s`. */
  function TrakCount(s: seq<Box>): (n: nat)
    ensures n <= |s|
  {
    if s == [] then 0
    else TrakCount(s[..|s| - 1]) + (if IsTrak(s[|s| - 1]) then 1 else 0)
  }

  lemma {:induction false} TrakCountAppend(a: seq<Box>, b: seq<Box>)
    ensures TrakCount(a + b) == TrakCount(a) + TrakCount(b)
    decreases |b|
  {
    if b == [] {
      assert a + b == a;
    } else {
      var b' := b[..|b| - 1];
      assert (a + b)[..|a + b| - 1] == a + b';
      TrakCountAppend(a, b');
    }
  }

  /** A box that is not a `trak`, inserted anywhere, leaves the count unchanged. */
  lemma NonTrakIgnored(a: seq<Box>, x: Box, b: seq<Box>)
    requires !IsTrak(x)
    ensures TrakCount(a + [x] + b) == TrakCount(a + b)
  {
    TrakCountAppend(a + [x], b);
    TrakCountAppend(a, [x]);
    TrakCountAppend(a, b);
    assert [x][..0] == [];
  }

  /** `xs` without its element at index j. */
  function RemoveAt(xs: seq<Box>, j: nat): (r: seq<Box>)
    requires j < |xs|
    ensures multiset(xs) == multiset(r) + multiset{xs[j]}
    ensures forall y :: y in r ==> y in xs
  {
    assert xs == xs[..j] + [xs[j]] + xs[j + 1..];
    xs[..j] + xs[j + 1..]
  }

  lemma MultisetCancel(a: multiset<Box>, b: multiset<Box>, x: Box)
    requires a + multiset{x} == b + multiset{x}
    ensures a == b
  {
    assert forall y :: a[y] == (a + multiset{x})[y] - multiset{x}[y];
    assert forall y :: b[y] == (b + multiset{x})[y] - multiset{x}[y];
  }

  /**
   * Any arrangement of N `trak` boxes and M other boxes holds exactly N
   * tracks, however they are interleaved.
   */
  lemma {:induction false} TrakCountOfMixture(s: seq<Box>, traks: seq<Box>, others: seq<Box>)
    requires forall x :: x in traks ==> IsTrak(x)
    requires forall x :: x in others ==> !IsTrak(x)
    requires multiset(s) == multiset(traks) + multiset(others)
    ensures TrakCount(s) == |traks|
    decreases |s|
  {
    if s == [] {
      assert |multiset(traks)| == 0;
    } else {
      var x := s[|s| - 1];
      var init := s[..|s| - 1];
      assert s == init + [x];
      assert multiset(s) == multiset(init) + multiset{x};
      assert x in multiset(s);
      assert x in multiset(traks) || x in multiset(others);
      if IsTrak(x) {
        assert x in traks;
        var j :| 0 <= j < |traks| && traks[j] == x;
        var rest := RemoveAt(traks, j);
        MultisetCancel(multiset(init), multiset(rest) + multiset(others), x);
        TrakCountOfMixture(init, rest, others);
      } else {
        assert x in others;
        var j :| 0 <= j < |others| && others[j] == x;
        var rest := RemoveAt(others, j);
        MultisetCancel(multiset(init), multiset(traks) + multiset(rest), x);
        TrakCountOfMixture(init, traks, rest);
      }
    }
  }

  /** With no `trak` counted, no box of `s` is a `trak`. */
  lemma {:induction false} NoTrakCounted(s: seq<Box>)
    requires TrakCount(s) == 0
    ensures forall k :: 0 <= k < |s| ==> !IsTrak(s[k])
  {
    forall k | 0 <= k < |s| ensures !IsTrak(s[k]) {
      assert s == s[..k] + [s[k]] + s[k + 1..];
      TrakCountAppend(s[..k] + [s[k]], s[k + 1..]);
      TrakCountAppend(s[..k], [s[k]]);
      assert [s[k]][..0] == [];
    }
  }

  // ---------------------------------------------------- selecting the i-th trak

  /** Index in `s` of the `trak` that has exactly `k` `trak` boxes before it. */
  function NthTrak(s: seq<Box>, k: int): (r: Option<nat>)
    ensures r.Some? <==> 0 <= k < TrakCount(s)
    ensures r.Some? ==> r.value < |s| && IsTrak(s[r.value]) && TrakCount(s[..r.value]) == k
  {
    if s == [] then None
    else
      var init := s[..|s| - 1];
      if IsTrak(s[|s| - 1]) && TrakCount(init) == k then Some(|s| - 1)
      else
        var r := NthTrak(init, k);
        assert r.Some? ==> s[..r.value] == init[..r.value];
        r
  }

  lemma {:induction false} TrakCountPrefixGrows(s: seq<Box>, i: nat, j: nat)
    requires i < j <= |s| && IsTrak(s[i])
    ensures TrakCount(s[..i]) < TrakCount(s[..j])
  {
    assert s[..j] == s[..i] + [s[i]] + s[i + 1..j];
    TrakCountAppend(s[..i] + [s[i]], s[i + 1..j]);
    TrakCountAppend(s[..i], [s[i]]);
    assert [s[i]][..0] == [];
  }

  /** The i-th `trak` is the one with exactly i `trak` boxes before it: there is only one. */
  lemma NthTrakIs(s: seq<Box>, k: int, j: nat)
    requires j < |s| && IsTrak(s[j]) && TrakCount(s[..j]) == k
    ensures NthTrak(s, k) == Some(j)
  {
    TrakCountPrefixGrows(s, j, |s|);
    assert s[..|s|] == s;
    var r := NthTrak(s, k).value;
    if r < j {
      TrakCountPrefixGrows(s, r, j);
    } else if j < r {
      TrakCountPrefixGrows(s, j, r);
    }
  }

  // --------------------------------------------------- scanning the track headers

  /** Every `trak` of s[i..j] has a `tkhd` whose volume does not stop the scan. */
  predicate Passes(s: seq<Box>, i: nat, j: nat, rule: StopRule)
    requires i <= j <= |s|
  {
    forall k :: i <= k < j && IsTrak(s[k]) ==>
      FindBox(s[k], "tkhd").Some? && !Stops(rule, Volume(FindBox(s[k], "tkhd").value))
  }

  /** The `tkhd` the scan holds after looking at s[i]. */
  function NextHeader(s: seq<Box>, i: nat, last: Option<Box>): Option<Box>
    requires i < |s|
  {
    if IsTrak(s[i]) then FindBox(s[i], "tkhd") else last
  }

  /** Passing s[i..j] is passing s[i] and then s[i+1..j]. */
  lemma PassesFirst(s: seq<Box>, i: nat, j: nat, rule: StopRule)
    requires i < j <= |s| && Passes(s, i, j, rule)
    ensures Passes(s, i + 1, j, rule)
    ensures IsTrak(s[i]) ==> FindBox(s[i], "tkhd").Some? && !Stops(rule, Volume(FindBox(s[i], "tkhd").value))
  {
  }

  /** `h` is the `tkhd` that the search finds in some `trak` of s[i..]. */
  predicate HeaderFrom(s: seq<Box>, i: nat, h: Box) {
    exists k :: i <= k < |s| && IsTrak(s[k]) && FindBox(s[k], "tkhd") == Some(h)
  }

  /**
   * The loop of getResolution and getVolume from index i on, with `last` the
   * `tkhd` seen so far (None while it is still null): for each `trak`, take its
   * `tkhd`, fail if there is none, stop if its volume meets the rule.
   */
  function ScanFrom(s: seq<Box>, i: nat, last: Option<Box>, rule: StopRule): (r: Result<Option<Box>>)
    requires i <= |s|
    ensures r.Err? ==> r.error == MissingBox("tkhd")
    ensures r.Ok? && r.value != last ==> r.value.Some? && HeaderFrom(s, i, r.value.value)
    decreases |s| - i
  {
    if i == |s| then Ok(last)
    else if IsTrak(s[i]) then
      match FindBox(s[i], "tkhd")
      case None => Err(MissingBox("tkhd"))
      case Some(h) =>
        assert FindBox(s[i], "tkhd") == Some(h);
        if Stops(rule, Volume(h)) then Ok(Some(h)) else ScanFrom(s, i + 1, Some(h), rule)
    else ScanFrom(s, i + 1, last, rule)
  }

  /** A position that does not stop or fail the scan hands its header on to the next one. */
  lemma ScanPassStep(s: seq<Box>, i: nat, last: Option<Box>, rule: StopRule)
    requires i < |s|
    requires IsTrak(s[i]) ==> FindBox(s[i], "tkhd").Some? && !Stops(rule, Volume(FindBox(s[i], "tkhd").value))
    ensures ScanFrom(s, i, last, rule) == ScanFrom(s, i + 1, NextHeader(s, i, last), rule)
  {
  }

  /** A `trak` whose `tkhd` meets the rule ends the scan there. */
  lemma ScanStopsHere(s: seq<Box>, i: nat, last: Option<Box>, rule: StopRule, h: Box)
    requires i < |s| && IsTrak(s[i]) && FindBox(s[i], "tkhd") == Some(h) && Stops(rule, Volume(h))
    ensures ScanFrom(s, i, last, rule) == Ok(Some(h))
  {
  }

  /** A `trak` without a `tkhd` makes the scan fail there. */
  lemma ScanFailsHere(s: seq<Box>, i: nat, last: Option<Box>, rule: StopRule)
    requires i < |s| && IsTrak(s[i]) && FindBox(s[i], "tkhd") == None
    ensures ScanFrom(s, i, last, rule) == Err(MissingBox("tkhd"))
  {
  }

  /** The scan ends at the first `trak` whose `tkhd` meets the rule when every earlier one passes. */
  lemma {:induction false} ScanStopsAtFirst(s: seq<Box>, i: nat, last: Option<Box>, rule: StopRule, j: nat, h: Box)
    requires i <= j < |s| && IsTrak(s[j]) && FindBox(s[j], "tkhd") == Some(h) && Stops(rule, Volume(h))
    requires Passes(s, i, j, rule)
    ensures ScanFrom(s, i, last, rule) == Ok(Some(h))
    decreases j - i
  {
    if i < j {
      PassesFirst(s, i, j, rule);
      ScanPassStep(s, i, last, rule);
      var next := NextHeader(s, i, last);
      ScanStopsAtFirst(s, i + 1, next, rule, j, h);
    } else {
      ScanStopsHere(s, i, last, rule, h);
    }
  }

  /** When no `trak` meets the rule, the scan ends with the `tkhd` of the last `trak`. */
  lemma {:induction false} ScanEndsAtLast(s: seq<Box>, i: nat, last: Option<Box>, rule: StopRule, j: nat)
    requires i <= |s| && j < |s| && IsTrak(s[j])
    requires forall k :: j < k < |s| ==> !IsTrak(s[k])
    requires Passes(s, i, |s|, rule)
    requires i <= j || last == FindBox(s[j], "tkhd")
    ensures ScanFrom(s, i, last, rule) == Ok(FindBox(s[j], "tkhd"))
    decreases |s| - i
  {
    if i < |s| {
      PassesFirst(s, i, |s|, rule);
      ScanPassStep(s, i, last, rule);
      var next := NextHeader(s, i, last);
      assert i + 1 <= j || next == FindBox(s[j], "tkhd");
      ScanEndsAtLast(s, i + 1, next, rule, j);
    }
  }

  /** With no `trak` left, the scan keeps what it had. */
  lemma {:induction false} ScanWithoutTrak(s: seq<Box>, i: nat, last: Option<Box>, rule: StopRule)
    requires i <= |s|
    requires forall k :: i <= k < |s| ==> !IsTrak(s[k])
    ensures ScanFrom(s, i, last, rule) == Ok(last)
    decreases |s| - i
  {
    if i < |s| {
      ScanWithoutTrak(s, i + 1, last, rule);
    }
  }

  /** The scan fails at the first `trak` without a `tkhd` that it reaches. */
  lemma {:induction false} ScanFailsWithoutHeader(s: seq<Box>, i: nat, last: Option<Box>, rule: StopRule, j: nat)
    requires i <= j < |s| && IsTrak(s[j]) && FindBox(s[j], "tkhd") == None
    requires Passes(s, i, j, rule)
    ensures ScanFrom(s, i, last, rule) == Err(MissingBox("tkhd"))
    decreases j - i
  {
    if i < j {
      PassesFirst(s, i, j, rule);
      ScanPassStep(s, i, last, rule);
      var next := NextHeader(s, i, last);
      ScanFailsWithoutHeader(s, i + 1, next, rule, j);
    } else {
      ScanFailsHere(s, i, last, rule);
    }
  }

  // ------------------------------------------------------------ the queries

  /** getTrackCount */
  function TrackCountOf(root: Box): (r: Result<nat>)
    ensures r.Err? <==> FindBox(root, "moov") == None
    ensures r.Err? ==> r.error == MissingBox("moov")
    ensures r.Ok? ==> r.value <= |FindBox(root, "moov").value.boxes|
    ensures r.Ok? ==> r.value == TrakCount(FindBox(root, "moov").value.boxes)
  {
    match FindBox(root, "moov")
    case None => Err(MissingBox("moov"))
    case Some(moov) => Ok(TrakCount(moov.boxes))
  }

  /** getTrackType(trackIndex) */
  function TrackTypeOf(root: Box, trackIndex: int): (r: Result<TrackType>)
    ensures r == Err(MissingBox("moov")) <==> FindBox(root, "moov") == None
    ensures r == Err(NoTrackSelected) <==>
      TrackCountOf(root).Ok? && !(0 <= trackIndex < TrackCountOf(root).value)
  {
    match FindBox(root, "moov")
    case None => Err(MissingBox("moov"))
    case Some(moov) =>
      match NthTrak(moov.boxes, trackIndex)
      case None => Err(NoTrackSelected)
      case Some(j) =>
        match FindBox(moov.boxes[j], "tkhd")
        case None => Err(MissingBox("tkhd"))
        case Some(tkhd) => Ok(if IsNumber(Volume(tkhd), 1.0) then Audio else Video)
  }

  /** `tkhd` is the `tkhd` that the search finds in some `trak` child of `moov`. */
  predicate TrackHeaderOf(moov: Box, tkhd: Box) {
    exists k :: 0 <= k < |moov.boxes| && IsTrak(moov.boxes[k]) && FindBox(moov.boxes[k], "tkhd") == Some(tkhd)
  }

  /** The `tkhd` that the scan of getResolution or getVolume ends with. */
  function ScannedHeader(root: Box, rule: StopRule): (r: Result<Box>)
    ensures r == Err(MissingBox("moov")) <==> FindBox(root, "moov") == None
    ensures r.Err? ==> r.error in {MissingBox("moov"), MissingBox("tkhd"), NoTrackSelected}
    ensures r.Ok? ==> FindBox(root, "moov").Some? && TrackHeaderOf(FindBox(root, "moov").value, r.value)
  {
    match FindBox(root, "moov")
    case None => Err(MissingBox("moov"))
    case Some(moov) =>
      match ScanFrom(moov.boxes, 0, None, rule)
      case Err(e) => Err(e)
      case Ok(None) => Err(NoTrackSelected)
      case Ok(Some(tkhd)) => Ok(tkhd)
  }

  /** getResolution */
  function ResolutionOf(root: Box): (r: Result<(Value, Value)>)
    ensures r.Err? <==> ScannedHeader(root, VolumeIsZero).Err?
    ensures r.Ok? ==>
      FindBox(root, "moov").Some? &&
      (exists tkhd :: TrackHeaderOf(FindBox(root, "moov").value, tkhd) && r.value == Dimensions(tkhd))
  {
    match ScannedHeader(root, VolumeIsZero)
    case Err(e) => Err(e)
    case Ok(tkhd) => Ok(Dimensions(tkhd))
  }

  /** `[tkhd.width, tkhd.height]` */
  function Dimensions(tkhd: Box): (r: (Value, Value))
    ensures r.0 != Undefined ==> Present(tkhd.fields, "width", r.0)
    ensures r.1 != Undefined ==> Present(tkhd.fields, "height", r.1)
  {
    GetFindsFirst(tkhd.fields, "width");
    GetFindsFirst(tkhd.fields, "height");
    (Get(tkhd.fields, "width"), Get(tkhd.fields, "height"))
  }

  /** getVolume: `tkhd.volume` */
  function VolumeOf(root: Box): (r: Result<Value>)
    ensures r.Err? <==> ScannedHeader(root, VolumeIsOne).Err?
    ensures r.Ok? ==>
      FindBox(root, "moov").Some? &&
      (exists tkhd :: TrackHeaderOf(FindBox(root, "moov").value, tkhd) && r.value == Volume(tkhd))
  {
    match ScannedHeader(root, VolumeIsOne)
    case Err(e) => Err(e)
    case Ok(tkhd) => Ok(Volume(tkhd))
  }

  /** getDuration up to its division: `mvhd.duration` and `mvhd.timeScale`. */
  function DurationOperandsOf(root: Box): (r: Result<(Value, Value)>)
    ensures r.Err? <==> FindBox(root, "mvhd") == None
    ensures r.Ok? ==>
      exists mvhd :: (HasType(mvhd, "mvhd") && Below(mvhd, root) &&
                      r.value == (Get(mvhd.fields, "duration"), Get(mvhd.fields, "timeScale")))
  {
    FindBoxIsBelow(root, "mvhd");
    match FindBox(root, "mvhd")
    case None => Err(MissingBox("mvhd"))
    case Some(mvhd) => Ok((Get(mvhd.fields, "duration"), Get(mvhd.fields, "timeScale")))
  }

  // ------------------------------------------------- properties of the queries

  /**
   * The i-th track (0-based, counting `trak` children only) is audio exactly
   * when its `tkhd.volume` is 1, and video otherwise.
   */
  lemma TrackTypeOfSelected(root: Box, moov: Box, trackIndex: int, j: nat, tkhd: Box)
    requires FindBox(root, "moov") == Some(moov)
    requires j < |moov.boxes| && IsTrak(moov.boxes[j]) && TrakCount(moov.boxes[..j]) == trackIndex
    requires FindBox(moov.boxes[j], "tkhd") == Some(tkhd)
    ensures TrackTypeOf(root, trackIndex) == Ok(Audio) <==> IsNumber(Volume(tkhd), 1.0)
    ensures TrackTypeOf(root, trackIndex) == Ok(Video) <==> !IsNumber(Volume(tkhd), 1.0)
  {
    NthTrakIs(moov.boxes, trackIndex, j);
  }

  /** When the selected `trak` has no `tkhd`, getTrackType fails on the `undefined` that the search returned. */
  lemma TrackTypeMissingHeader(root: Box, moov: Box, trackIndex: int, j: nat)
    requires FindBox(root, "moov") == Some(moov)
    requires j < |moov.boxes| && IsTrak(moov.boxes[j]) && TrakCount(moov.boxes[..j]) == trackIndex
    requires FindBox(moov.boxes[j], "tkhd") == None
    ensures TrackTypeOf(root, trackIndex) == Err(MissingBox("tkhd"))
  {
    NthTrakIs(moov.boxes, trackIndex, j);
  }

  /** The resolution is that of the first `trak` whose `tkhd.volume` is 0, when every earlier `trak` has a `tkhd`. */
  lemma ResolutionOfFirstSilentTrack(root: Box, moov: Box, j: nat, tkhd: Box)
    requires FindBox(root, "moov") == Some(moov)
    requires j < |moov.boxes| && IsTrak(moov.boxes[j])
    requires FindBox(moov.boxes[j], "tkhd") == Some(tkhd) && IsNumber(Volume(tkhd), 0.0)
    requires Passes(moov.boxes, 0, j, VolumeIsZero)
    ensures ResolutionOf(root) == Ok(Dimensions(tkhd))
  {
    ScanStopsAtFirst(moov.boxes, 0, None, VolumeIsZero, j, tkhd);
  }

  /** With no `trak` of volume 0, the resolution is that of the last `trak`. */
  lemma ResolutionOfLastTrack(root: Box, moov: Box, j: nat, tkhd: Box)
    requires FindBox(root, "moov") == Some(moov)
    requires j < |moov.boxes| && IsTrak(moov.boxes[j])
    requires forall k :: j < k < |moov.boxes| ==> !IsTrak(moov.boxes[k])
    requires FindBox(moov.boxes[j], "tkhd") == Some(tkhd)
    requires Passes(moov.boxes, 0, |moov.boxes|, VolumeIsZero)
    ensures ResolutionOf(root) == Ok(Dimensions(tkhd))
  {
    ScanEndsAtLast(moov.boxes, 0, None, VolumeIsZero, j);
  }

  /** The volume is that of the first `trak` whose `tkhd.volume` is 1, when every earlier `trak` has a `tkhd`. */
  lemma VolumeOfFirstFullVolumeTrack(root: Box, moov: Box, j: nat, tkhd: Box)
    requires FindBox(root, "moov") == Some(moov)
    requires j < |moov.boxes| && IsTrak(moov.boxes[j])
    requires FindBox(moov.boxes[j], "tkhd") == Some(tkhd) && IsNumber(Volume(tkhd), 1.0)
    requires Passes(moov.boxes, 0, j, VolumeIsOne)
    ensures VolumeOf(root) == Ok(Num(1.0))
  {
    ScanStopsAtFirst(moov.boxes, 0, None, VolumeIsOne, j, tkhd);
  }

  /** With no `trak` of volume 1, the volume is that of the last `trak`. */
  lemma VolumeOfLastTrack(root: Box, moov: Box, j: nat, tkhd: Box)
    requires FindBox(root, "moov") == Some(moov)
    requires j < |moov.boxes| && IsTrak(moov.boxes[j])
    requires forall k :: j < k < |moov.boxes| ==> !IsTrak(moov.boxes[k])
    requires FindBox(moov.boxes[j], "tkhd") == Some(tkhd)
    requires Passes(moov.boxes, 0, |moov.boxes|, VolumeIsOne)
    ensures VolumeOf(root) == Ok(Volume(tkhd))
    ensures !IsNumber(Volume(tkhd), 1.0)
  {
    ScanEndsAtLast(moov.boxes, 0, None, VolumeIsOne, j);
  }

  /** Without any `trak` under `moov`, getResolution and getVolume fail. */
  lemma NoTrackNoHeader(root: Box, moov: Box)
    requires FindBox(root, "moov") == Some(moov)
    requires TrackCountOf(root) == Ok(0)
    ensures ResolutionOf(root) == Err(NoTrackSelected)
    ensures VolumeOf(root) == Err(NoTrackSelected)
  {
    NoTrakCounted(moov.boxes);
    ScanWithoutTrak(moov.boxes, 0, None, VolumeIsZero);
    ScanWithoutTrak(moov.boxes, 0, None, VolumeIsOne);
  }

  /** A `trak` without `tkhd` that the scan reaches makes the query fail. */
  lemma ResolutionMissingHeader(root: Box, moov: Box, j: nat)
    requires FindBox(root, "moov") == Some(moov)
    requires j < |moov.boxes| && IsTrak(moov.boxes[j]) && FindBox(moov.boxes[j], "tkhd") == None
    requires Passes(moov.boxes, 0, j, VolumeIsZero)
    ensures ResolutionOf(root) == Err(MissingBox("tkhd"))
  {
    ScanFailsWithoutHeader(moov.boxes, 0, None, VolumeIsZero, j);
  }

  /** A `trak` without `tkhd` that the scan reaches makes getVolume fail too. */
  lemma VolumeMissingHeader(root: Box, moov: Box, j: nat)
    requires FindBox(root, "moov") == Some(moov)
    requires j < |moov.boxes| && IsTrak(moov.boxes[j]) && FindBox(moov.boxes[j], "tkhd") == None
    requires Passes(moov.boxes, 0, j, VolumeIsOne)
    ensures VolumeOf(root) == Err(MissingBox("tkhd"))
  {
    ScanFailsWithoutHeader(moov.boxes, 0, None, VolumeIsOne, j);
  }

  const Tkhd1080: Box := Box([Field("type", Text("tkhd")), Field("volume", Num(0.0)),
                             Field("width", Num(1920.0)), Field("height", Num(1080.0))], [])
  const VideoTrak: Box := Box([Field("type", Text("trak"))], [Tkhd1080])
  const Moov1080: Box := Box([Field("type", Text("moov"))], [VideoTrak])
  const File1080: Box := Box([Field("type", Text("isom"))], [Box([Field("type", Text("ftyp"))], []), Moov1080])

  lemma ExampleSearches()
    ensures FindBox(File1080, "moov") == Some(Moov1080)
    ensures FindBox(VideoTrak, "tkhd") == Some(Tkhd1080)
  {
    assert HasType(File1080.boxes[1], "moov") && !HasType(File1080.boxes[0], "moov");
    assert MatchIndex(File1080.boxes, "moov") == 1;
    assert HasType(VideoTrak.boxes[0], "tkhd");
    assert MatchIndex(VideoTrak.boxes, "tkhd") == 0;
  }

  lemma ExampleTracks()
    ensures TrakCount(Moov1080.boxes) == 1
    ensures NthTrak(Moov1080.boxes, 0) == Some(0)
  {
    assert IsTrak(Moov1080.boxes[0]);
    assert Moov1080.boxes[..1] == Moov1080.boxes;
    assert Moov1080.boxes[..0] == [];
    NthTrakIs(Moov1080.boxes, 0, 0);
  }

  lemma ExampleResolution()
    ensures ResolutionOf(File1080) == Ok((Num(1920.0), Num(1080.0)))
  {
    ExampleSearches();
    assert IsTrak(Moov1080.boxes[0]);
    assert Volume(Tkhd1080) == Num(0.0);
    ResolutionOfFirstSilentTrack(File1080, Moov1080, 0, Tkhd1080);
  }

  lemma ExampleTrackTypes()
    ensures TrackTypeOf(File1080, 0) == Ok(Video)
    ensures TrackTypeOf(File1080, 1) == Err(NoTrackSelected)
  {
    ExampleSearches();
    ExampleTracks();
    assert Volume(Tkhd1080) == Num(0.0);
  }

  /** A file whose one track has `tkhd` volume 0, width 1920 and height 1080 reports that resolution. */
  lemma ResolutionExample()
    ensures TrackCountOf(File1080) == Ok(1)
    ensures ResolutionOf(File1080) == Ok((Num(1920.0), Num(1080.0)))
    ensures TrackTypeOf(File1080, 0) == Ok(Video)
    ensures TrackTypeOf(File1080, 1) == Err(NoTrackSelected)
  {
    ExampleSearches();
    ExampleTracks();
    ExampleResolution();
    ExampleTrackTypes();
  }


}
