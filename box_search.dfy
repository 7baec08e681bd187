/**
 * The private box search of mp4.js (`_getBox`, `_getMovieBox`,
 * `_getMovieHeaderBox`). The search looks at the immediate children first and
 * returns the first whose type matches. Failing that, it goes down into the
 * FIRST child that has children of its own and nowhere else: the loop over
 * the queued containers returns on its first iteration.
 */
module BoxSearch {
  import opened BoxTree

  /** Index of the first box of `s` whose type is `t`, or |s| when there is none. */
  function MatchIndex(s: seq<Box>, t: string): (k: nat)
    ensures k <= |s|
    ensures forall j :: 0 <= j < k ==> !HasType(s[j], t)
    ensures k < |s| ==> HasType(s[k], t)
  {
    if s == [] then 0
    else if HasType(s[0], t) then 0
    else 1 + MatchIndex(s[1..], t)
  }

  /** Index of the first box of `s` that has children, or |s| when there is none. */
  function ContainerIndex(s: seq<Box>): (k: nat)
    ensures k <= |s|
    ensures forall j :: 0 <= j < k ==> s[j].boxes == []
    ensures k < |s| ==> s[k].boxes != []
  {
    if s == [] then 0
    else if s[0].boxes != [] then 0
    else 1 + ContainerIndex(s[1..])
  }

  /** `_getBox(b, t)`, with `undefined` as None. */
  function FindBox(b: Box, t: string): (r: Option<Box>)
    ensures r.Some? ==> HasType(r.value, t)
    decreases b
  {
    var k := MatchIndex(b.boxes, t);
    if k < |b.boxes| then Some(b.boxes[k])
    else
      var c := ContainerIndex(b.boxes);
      if c < |b.boxes| then FindBox(b.boxes[c], t) else None
  }

  /** `x` is `b` or lies somewhere below it. */
  predicate InSubtree(x: Box, b: Box)
    decreases b
  {
    x == b || exists i :: 0 <= i < |b.boxes| && InSubtree(x, b.boxes[i])
  }

  /** `x` lies strictly below `b`: in the subtree of one of its children. */
  predicate Below(x: Box, b: Box) {
    exists i :: 0 <= i < |b.boxes| && InSubtree(x, b.boxes[i])
  }

  /** Whatever the search returns has the requested type and lies strictly below the box searched. */
  lemma {:induction false} FindBoxIsBelow(b: Box, t: string)
    ensures FindBox(b, t).Some? ==> HasType(FindBox(b, t).value, t) && Below(FindBox(b, t).value, b)
    decreases b
  {
    var k := MatchIndex(b.boxes, t);
    if k < |b.boxes| {
      assert InSubtree(b.boxes[k], b.boxes[k]);
    } else {
      var c := ContainerIndex(b.boxes);
      if c < |b.boxes| {
        FindBoxIsBelow(b.boxes[c], t);
        if FindBox(b, t).Some? {
          var x := FindBox(b, t).value;
          var i :| 0 <= i < |b.boxes[c].boxes| && InSubtree(x, b.boxes[c].boxes[i]);
          assert InSubtree(x, b.boxes[c]);
        }
      }
    }
  }

  /**
   * Search order: while some immediate child has the requested type, the
   * search returns the first such child in document order, never a deeper box.
   */
  lemma ImmediateChildFirst(b: Box, t: string, k: nat)
    requires k < |b.boxes| && HasType(b.boxes[k], t)
    requires forall j :: 0 <= j < k ==> !HasType(b.boxes[j], t)
    ensures FindBox(b, t) == Some(b.boxes[k])
  {
  }

  /**
   * One subtree only: when no immediate child matches, the search returns a
   * box of the first child that has children of its own, and fails when no
   * child has any.
   */
  lemma {:induction false} OnlyFirstContainerSearched(b: Box, t: string)
    requires forall j :: 0 <= j < |b.boxes| ==> !HasType(b.boxes[j], t)
    ensures (forall j :: 0 <= j < |b.boxes| ==> b.boxes[j].boxes == []) ==> FindBox(b, t) == None
    ensures FindBox(b, t).Some? ==>
      var c := ContainerIndex(b.boxes);
      c < |b.boxes| && (forall j :: 0 <= j < c ==> b.boxes[j].boxes == []) && Below(FindBox(b, t).value, b.boxes[c])
    ensures ContainerIndex(b.boxes) < |b.boxes| ==> FindBox(b, t) == FindBox(b.boxes[ContainerIndex(b.boxes)], t)
  {
    var c := ContainerIndex(b.boxes);
    if c < |b.boxes| {
      FindBoxIsBelow(b.boxes[c], t);
    }
  }

  const Mvhd: Box := Box([Field("type", Text("mvhd"))], [])
  const MovieFile: Box :=
    Box([Field("type", Text("isom"))], [Box([Field("type", Text("ftyp"))], []), Box([Field("type", Text("moov"))], [Mvhd])])

  /** In the usual layout `isom{ftyp, moov{mvhd}}`, the search goes down into `moov` and finds `mvhd`. */
  lemma MovieHeaderInsideMovie()
    ensures FindBox(MovieFile, "mvhd") == Some(Mvhd)
  {
    assert MatchIndex(MovieFile.boxes, "mvhd") == 2;
    assert ContainerIndex(MovieFile.boxes) == 1;
    assert MatchIndex(MovieFile.boxes[1].boxes, "mvhd") == 0;
  }

  const Tkhd: Box := Box([Field("type", Text("tkhd"))], [])
  const FirstTrak: Box := Box([Field("type", Text("trak"))], [Box([Field("type", Text("mdia"))], [Box([], [])])])
  const SecondTrak: Box := Box([Field("type", Text("trak"))], [Tkhd])
  const TwoTraks: Box := Box([Field("type", Text("moov"))], [FirstTrak, SecondTrak])

  /**
   * A `tkhd` that sits only under the second of two container children is
   * not found: the search goes into the first container and stops there.
   */
  lemma LaterSiblingNotSearched()
    ensures Below(Tkhd, TwoTraks)
    ensures FindBox(TwoTraks, "tkhd") == None
  {
    assert InSubtree(Tkhd, SecondTrak.boxes[0]);
    assert InSubtree(Tkhd, TwoTraks.boxes[1]);
    assert MatchIndex(TwoTraks.boxes, "tkhd") == 2;
    assert ContainerIndex(TwoTraks.boxes) == 0;
    assert MatchIndex(FirstTrak.boxes, "tkhd") == 1;
    assert ContainerIndex(FirstTrak.boxes) == 0;
    var mdia := FirstTrak.boxes[0];
    assert MatchIndex(mdia.boxes, "tkhd") == 1;
    assert ContainerIndex(mdia.boxes) == 1;
  }

  /**
   * `_getBox`: one pass over the children that returns the first match and
   * queues every child that has children, then a loop over the queue whose
   * body returns the search of the first queued box.
   */
  method GetBox(box: Box, t: string) returns (r: Option<Box>)
    ensures r == FindBox(box, t)
    decreases box
  {
    ghost var c := ContainerIndex(box.boxes);
    var queueBox: seq<Box> := [];
    var i := 0;
    while i < |box.boxes|
      invariant 0 <= i <= |box.boxes|
      invariant forall j :: 0 <= j < i ==> !HasType(box.boxes[j], t)
      invariant queueBox == [] <==> c >= i
      invariant queueBox != [] ==> c < i && queueBox[0] == box.boxes[c]
    {
      if HasType(box.boxes[i], t) {
        assert MatchIndex(box.boxes, t) == i;
        return Some(box.boxes[i]);
      }
      if |box.boxes[i].boxes| > 0 {
        queueBox := queueBox + [box.boxes[i]];
      }
      i := i + 1;
    }
    assert MatchIndex(box.boxes, t) == |box.boxes|;
    for k := 0 to |queueBox| {
      r := GetBox(queueBox[k], t);
      return;
    }
    r := None;
  }

  /** `_getMovieBox`: the `moov` box that the search finds. */
  method GetMovieBox(box: Box) returns (moov: Option<Box>)
    ensures moov == FindBox(box, "moov")
    ensures moov.Some? ==> HasType(moov.value, "moov") && Below(moov.value, box)
  {
    FindBoxIsBelow(box, "moov");
    moov := GetBox(box, "moov");
  }

  /** `_getMovieHeaderBox`: the `mvhd` box that the search finds. */
  method GetMovieHeaderBox(box: Box) returns (mvhd: Option<Box>)
    ensures mvhd == FindBox(box, "mvhd")
    ensures mvhd.Some? ==> HasType(mvhd.value, "mvhd") && Below(mvhd.value, box)
  {
    FindBoxIsBelow(box, "mvhd");
    mvhd := GetBox(box, "mvhd");
  }
}
