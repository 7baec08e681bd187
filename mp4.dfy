/**
 * The `MP4` object of mp4.js: the file's bytes, the root box that parsing
 * fills in, the root of the display tree, and the queries. The track queries
 * run the loops of the source and are proved equal to their functions in
 * TrackQueries.
 */
module Mp4 {
  import opened BoxTree
  import opened BoxSearch
  import opened TrackQueries
  import opened JsonExport

  /**
   * The loop shared by getResolution and getVolume: for each `trak` child,
   * in order, search its `tkhd`; fail if there is none (the dereference of
   * `undefined`), stop at the first whose volume meets the rule. The result
   * is the last `tkhd` taken, None when no `trak` was met.
   */
  method ScanTracks(boxes: seq<Box>, rule: StopRule) returns (r: Result<Option<Box>>)
    ensures r == ScanFrom(boxes, 0, None, rule)
  {
    var tkhd: Option<Box> := None;
    var i := 0;
    while i < |boxes|
      invariant 0 <= i <= |boxes|
      invariant ScanFrom(boxes, i, tkhd, rule) == ScanFrom(boxes, 0, None, rule)
    {
      if IsTrak(boxes[i]) {
        var found := GetBox(boxes[i], "tkhd");
        if found.None? {
          return Err(MissingBox("tkhd"));
        }
        tkhd := found;
        if Stops(rule, Volume(found.value)) {
          break;
        }
      }
      i := i + 1;
    }
    return Ok(tkhd);
  }

  class Mp4File {
    /** The file's bytes, as handed to the constructor. */
    var data: seq<bv8>
    /** The synthetic `isom` box that parsing fills with the file's top-level boxes. */
    var rootBox: Box
    /** The root of the display tree that getJSON appends to. */
    var rootJson: Node

    /** `new MP4(blob)` */
    constructor (blob: seq<bv8>)
      ensures data == blob && rootBox == RootBox() && rootJson == RootJson()
    {
      data := blob;
      rootBox := RootBox();
      rootJson := RootJson();
    }

    /**
     * `parse`: hands a view of the whole buffer and the root box to the box
     * parser, which is a parameter here; whatever it makes of the root is
     * the new root.
     */
    method Parse(boxParse: (seq<bv8>, Box) -> Box)
      modifies this
      ensures rootBox == boxParse(old(data), old(rootBox))
      ensures data == old(data) && rootJson == old(rootJson)
    {
      rootBox := boxParse(data, rootBox);
    }

    /**
     * `getJSON(box, this.rootJSON)`: appends the display node of `box` to the
     * root of the display tree and returns that root.
     */
    method GetJson(box: Box) returns (r: Node)
      modifies this
      ensures rootJson == AddChild(old(rootJson), ExportBox(box)) && r == rootJson
      ensures data == old(data) && rootBox == old(rootBox)
    {
      rootJson := AppendBoxNode(box, rootJson);
      r := rootJson;
    }

    /** getDuration up to the division: the `duration` and `timeScale` of `mvhd`. */
    method GetDuration() returns (r: Result<(Value, Value)>)
      ensures r == DurationOperandsOf(rootBox)
      ensures r.Err? <==> FindBox(rootBox, "mvhd") == None
    {
      var mvhd := GetMovieHeaderBox(rootBox);
      if mvhd.None? {
        return Err(MissingBox("mvhd"));
      }
      r := Ok((Get(mvhd.value.fields, "duration"), Get(mvhd.value.fields, "timeScale")));
    }

    /** getTrackCount: counts the `trak` children of `moov`. */
    method GetTrackCount() returns (r: Result<nat>)
      ensures r == TrackCountOf(rootBox)
    {
      var moov := GetMovieBox(rootBox);
      if moov.None? {
        return Err(MissingBox("moov"));
      }
      var boxes := moov.value.boxes;
      var count := 0;
      var i := 0;
      while i < |boxes|
        invariant 0 <= i <= |boxes|
        invariant count == TrakCount(boxes[..i])
      {
        assert boxes[..i + 1][..i] == boxes[..i];
        if IsTrak(boxes[i]) {
          count := count + 1;
        }
        i := i + 1;
      }
      assert boxes[..i] == boxes;
      return Ok(count);
    }

    /**
     * getTrackType: walks the children of `moov`, counting `trak` children,
     * and takes the `tkhd` of the one whose position among them is
     * `trackIndex`.
     */
    method GetTrackType(trackIndex: int) returns (r: Result<TrackType>)
      ensures r == TrackTypeOf(rootBox, trackIndex)
    {
      var moov := GetMovieBox(rootBox);
      if moov.None? {
        return Err(MissingBox("moov"));
      }
      var boxes := moov.value.boxes;
      // None while `tkhd` is still null; Some(None) when `_getBox` returned undefined
      var tkhd: Option<Option<Box>> := None;
      ghost var selected: Option<nat> := None;
      var curTrak := 0;
      var i := 0;
      while i < |boxes|
        invariant 0 <= i <= |boxes|
        invariant curTrak == TrakCount(boxes[..i])
        invariant trackIndex < 0 || curTrak <= trackIndex
        invariant tkhd == None && selected == None
      {
        assert boxes[..i + 1][..i] == boxes[..i];
        if IsTrak(boxes[i]) {
          if curTrak == trackIndex {
            var found := GetBox(boxes[i], "tkhd");
            tkhd := Some(found);
            selected := Some(i);
            NthTrakIs(boxes, trackIndex, i);
            break;
          }
          curTrak := curTrak + 1;
        }
        i := i + 1;
      }
      if selected == None {
        assert boxes[..i] == boxes;
      }
      assert NthTrak(boxes, trackIndex) == selected;
      assert selected.Some? ==> selected.value < |boxes| && tkhd == Some(FindBox(boxes[selected.value], "tkhd"));
      match tkhd
      case None => r := Err(NoTrackSelected);
      case Some(None) => r := Err(MissingBox("tkhd"));
      case Some(Some(h)) => r := Ok(if IsNumber(Volume(h), 1.0) then Audio else Video);
    }

    /** getResolution: width and height of the `tkhd` the scan ends with (volume 0 stops it). */
    method GetResolution() returns (r: Result<(Value, Value)>)
      ensures r == ResolutionOf(rootBox)
    {
      var moov := GetMovieBox(rootBox);
      if moov.None? {
        return Err(MissingBox("moov"));
      }
      var scan := ScanTracks(moov.value.boxes, VolumeIsZero);
      match scan
      case Err(e) => r := Err(e);
      case Ok(None) => r := Err(NoTrackSelected);
      case Ok(Some(tkhd)) => r := Ok((Get(tkhd.fields, "width"), Get(tkhd.fields, "height")));
    }

    /** getVolume: the volume of the `tkhd` the scan ends with (volume 1 stops it). */
    method GetVolume() returns (r: Result<Value>)
      ensures r == VolumeOf(rootBox)
    {
      var moov := GetMovieBox(rootBox);
      if moov.None? {
        return Err(MissingBox("moov"));
      }
      var scan := ScanTracks(moov.value.boxes, VolumeIsOne);
      match scan
      case Err(e) => r := Err(e);
      case Ok(None) => r := Err(NoTrackSelected);
      case Ok(Some(tkhd)) => r := Ok(Volume(tkhd));
    }
  }

  /** A freshly constructed, unparsed file has no `moov`: every track query fails. */
  lemma UnparsedFileHasNoTracks(trackIndex: int)
    ensures TrackCountOf(RootBox()) == Err(MissingBox("moov"))
    ensures TrackTypeOf(RootBox(), trackIndex) == Err(MissingBox("moov"))
    ensures ResolutionOf(RootBox()) == Err(MissingBox("moov"))
    ensures VolumeOf(RootBox()) == Err(MissingBox("moov"))
    ensures DurationOperandsOf(RootBox()) == Err(MissingBox("mvhd"))
  {
  }
}
