/** Blend segments, and how `moveb` flattens a list of them into rows of 14 numbers. */
module Blend {
  import opened Values

  const DR_LINE := 0
  const DR_CIRCLE := 1

  const ZERO_POSE: Pose := Repeat(0.0, 6)

  /** What a segment holds. */
  datatype Segment = Segment(segType: int, posx1: Pose, posx2: Option<Pose>, radius: real)

  /** What the constructor of `posb` accepts. */
  predicate WellFormed(s: Segment) {
    && (s.segType == DR_LINE || s.segType == DR_CIRCLE)
    && (s.segType == DR_LINE <==> s.posx2 == None)
    && s.radius >= 0.0
  }

  /** `posb(seg_type, posx1, posx2, radius)` */
  function MakeSegment(segType: Arg, posx1: Arg, posx2: Arg, radius: Arg): (r: Result<Segment>)
    ensures r.Ok? ==> WellFormed(r.value)
  {
    if !segType.Int? then Err(TypeError)
    else if segType.i != DR_LINE && segType.i != DR_CIRCLE then Err(ValueError)
    else
      var p1 :- GetPosx(posx1);
      if (segType.i == DR_LINE) != (posx2 == Absent) then Err(ValueError)
      else
        var p2: Option<Pose> :- if posx2 == Absent then Ok(None) else (var p :- GetPosx(posx2); Ok(Some(p)));
        if !IsNumber(radius) then Err(TypeError)
        else if Number(radius) < 0.0 then Err(ValueError)
        else Ok(Segment(segType.i, p1, p2, Number(radius)))
  }

  /** Which segment the arguments give, and when they give one. */
  lemma MakeSegmentIff(segType: Arg, posx1: Arg, posx2: Arg, radius: Arg, s: Segment)
    ensures MakeSegment(segType, posx1, posx2, radius) == Ok(s) <==>
      && segType == Int(s.segType) && (s.segType == 0 || s.segType == 1)
      && TaskPose(posx1, s.posx1)
      && (if s.segType == 0 then posx2 == Absent && s.posx2 == None
          else s.posx2.Some? && TaskPose(posx2, s.posx2.value))
      && Denotes(radius, s.radius) && s.radius >= 0.0
  {
  }

  /** Which error the others give: a wrong type as soon as one is met, and a wrong value at
      its turn. */
  lemma MakeSegmentErrors(segType: Arg, posx1: Arg, posx2: Arg, radius: Arg)
    ensures MakeSegment(segType, posx1, posx2, radius) == Err(ValueError) <==>
      && segType.Int?
      && ((segType.i != 0 && segType.i != 1)
          || (GetPosx(posx1).Ok?
              && ((segType.i == 0) != (posx2 == Absent)
                  || ((posx2 == Absent || GetPosx(posx2).Ok?) && IsNumber(radius) && Number(radius) < 0.0))))
    ensures MakeSegment(segType, posx1, posx2, radius) != Err(Raised)
  {
  }

  /** Exactly the well-formed segments can be constructed. */
  lemma ConstructibleIff(s: Segment)
    ensures WellFormed(s) <==> exists t, a, b, r :: MakeSegment(t, a, b, r) == Ok(s)
  {
    if WellFormed(s) {
      var b := if s.posx2 == None then Absent else PosX(s.posx2.value);
      assert MakeSegment(Int(s.segType), PosX(s.posx1), b, Float(s.radius)) == Ok(s);
    }
  }

  // Rows

  type Row = seq<real>

  function EncodeRow(s: Segment): (row: Row)
    ensures |row| == 14
  {
    s.posx1 + (if s.posx2 == None then ZERO_POSE else s.posx2.value) + [s.segType as real] + [s.radius]
  }

  /** Reading a row back by its offsets. */
  function DecodeRow(row: Row): Segment
    requires |row| == 14
  {
    var segType := if row[12] == 0.0 then DR_LINE else DR_CIRCLE;
    Segment(segType, row[0..6], if segType == DR_LINE then None else Some(row[6..12]), row[13])
  }

  /** A row is the encoding of some segment. */
  predicate IsRow(row: Row) {
    && |row| == 14
    && (row[12] == 0.0 || row[12] == 1.0)
    && (row[12] == 0.0 ==> forall i :: 6 <= i < 12 ==> row[i] == 0.0)
    && row[13] >= 0.0
  }

  /** Encoding is invertible, and its image is exactly the set of rows described above. */
  lemma RowRoundTrip(s: Segment, row: Row)
    requires WellFormed(s)
    ensures IsRow(EncodeRow(s)) && DecodeRow(EncodeRow(s)) == s
    ensures IsRow(row) ==> WellFormed(DecodeRow(row)) && EncodeRow(DecodeRow(row)) == row
  {
    var r := EncodeRow(s);
    assert r[0..6] == s.posx1;
    assert r[6..12] == if s.posx2 == None then ZERO_POSE else s.posx2.value;
    if IsRow(row) {
      var d := DecodeRow(row);
      assert row == row[0..6] + row[6..12] + [row[12]] + [row[13]];
    }
  }

  function EncodeRows(segs: seq<Segment>): (rows: seq<Row>)
    ensures |rows| == |segs| && forall i :: 0 <= i < |segs| ==> rows[i] == EncodeRow(segs[i])
  {
    seq(|segs|, i requires 0 <= i < |segs| => EncodeRow(segs[i]))
  }

  /** Two lists of segments with the same rows are the same list. */
  lemma RowsDetermineSegments(s: seq<Segment>, t: seq<Segment>)
    requires forall i :: 0 <= i < |s| ==> WellFormed(s[i])
    requires forall i :: 0 <= i < |t| ==> WellFormed(t[i])
    ensures EncodeRows(s) == EncodeRows(t) <==> s == t
  {
    if EncodeRows(s) == EncodeRows(t) {
      assert |s| == |t|;
      forall i | 0 <= i < |s| ensures s[i] == t[i] {
        RowRoundTrip(s[i], []);
        RowRoundTrip(t[i], []);
        assert EncodeRows(s)[i] == EncodeRows(t)[i];
      }
    }
  }

  // The message arrays

  datatype Float64MultiArray = Float64MultiArray(data: seq<real>)

  function Arrays(rows: seq<Row>): (a: seq<Float64MultiArray>)
    ensures |a| == |rows| && forall i :: 0 <= i < |rows| ==> a[i] == Float64MultiArray(rows[i])
  {
    seq(|rows|, i requires 0 <= i < |rows| => Float64MultiArray(rows[i]))
  }

  function Lists(arrays: seq<Float64MultiArray>): (rows: seq<Row>)
    ensures |rows| == |arrays| && forall i :: 0 <= i < |arrays| ==> rows[i] == arrays[i].data
  {
    seq(|arrays|, i requires 0 <= i < |arrays| => arrays[i].data)
  }

  /** `_ros_listToFloat64MultiArray` */
  method ListToArrays(rows: seq<Row>) returns (res: seq<Float64MultiArray>)
    ensures res == Arrays(rows)
  {
    res := [];
    for k := 0 to |rows|
      invariant res == Arrays(rows)[..k]
    {
      res := res + [Float64MultiArray(rows[k])];
    }
  }

  /** `_ros_Float64MultiArrayTolist` */
  method ArraysToLists(arrays: seq<Float64MultiArray>) returns (res: seq<Row>)
    ensures res == Lists(arrays)
  {
    res := [];
    for k := 0 to |arrays|
      invariant res == Lists(arrays)[..k]
    {
      res := res + [arrays[k].data];
    }
  }

  lemma ConversionsUndoEachOther(rows: seq<Row>, arrays: seq<Float64MultiArray>)
    ensures Lists(Arrays(rows)) == rows && Arrays(Lists(arrays)) == arrays
  {
  }

  // The objects

  /** One entry of the list a segment object makes of itself. */
  datatype Entry = IntEntry(i: int) | PoseEntry(p: Pose) | NoneEntry | NumberEntry(r: real)

  function PoseOrNone(p: Option<Pose>): Entry {
    if p == None then NoneEntry else PoseEntry(p.value)
  }

  class Posb {
    var segType: int
    var posx1: Pose
    var posx2: Option<Pose>
    var radius: real

    function View(): Segment
      reads this
    {
      Segment(segType, posx1, posx2, radius)
    }

    constructor (s: Segment)
      ensures View() == s
    {
      segType, posx1, posx2, radius := s.segType, s.posx1, s.posx2, s.radius;
    }

    method ToList() returns (valList: seq<Entry>)
      ensures valList == [IntEntry(segType), PoseEntry(posx1), PoseOrNone(posx2), NumberEntry(radius)]
    {
      valList := [];
      valList := valList + [IntEntry(segType)];
      valList := valList + [PoseEntry(posx1)];
      valList := valList + [PoseOrNone(posx2)];
      valList := valList + [NumberEntry(radius)];
    }
  }

  function Views(segs: seq<Posb>): (s: seq<Segment>)
    reads segs
    ensures |s| == |segs| && forall i :: 0 <= i < |segs| ==> s[i] == segs[i].View()
  {
    seq(|segs|, i requires 0 <= i < |segs| reads segs => segs[i].View())
  }

  datatype BlendRequest = BlendRequest(segment: seq<Float64MultiArray>, posCnt: int)

  function ZeroForNone(e: Entry): Entry {
    if e == NoneEntry then PoseEntry(ZERO_POSE) else e
  }

  /** The flattening in `_moveb`: `None` entries are replaced in each list, then the list
      is spread into a row. The segment objects themselves are left alone. */
  method MoveBlend(segs: seq<Posb>) returns (r: Result<BlendRequest>)
    requires forall k :: 0 <= k < |segs| ==> WellFormed(segs[k].View())
    ensures segs == [] ==> r == Err(ValueError)
    ensures segs != [] ==> r == Ok(BlendRequest(Arrays(EncodeRows(Views(segs))), |segs|))
  {
    if |segs| == 0 { return Err(ValueError); }
    var lists: seq<seq<Entry>> := [];
    for k := 0 to |segs|
      invariant |lists| == k
      invariant forall j :: 0 <= j < k ==> IsListOf(lists[j], segs[j].View())
    {
      var list := segs[k].ToList();
      lists := lists + [list];
    }
    var rows: seq<Row> := [];
    for s := 0 to |lists|
      invariant |lists| == |segs| && |rows| == s
      invariant forall j :: s <= j < |lists| ==> IsListOf(lists[j], segs[j].View())
      invariant forall j :: 0 <= j < s ==> rows[j] == EncodeRow(segs[j].View())
    {
      var list := lists[s];
      for e := 0 to |list|
        invariant |list| == 4 && IsListOf(lists[s], segs[s].View())
        invariant forall j :: 0 <= j < e ==> list[j] == ZeroForNone(lists[s][j])
        invariant forall j :: e <= j < 4 ==> list[j] == lists[s][j]
      {
        if list[e] == NoneEntry {
          list := list[e := PoseEntry(ZERO_POSE)];
        }
      }
      rows := rows + [list[1].p + list[2].p + [list[0].i as real] + [list[3].r]];
    }
    assert rows == EncodeRows(Views(segs));
    var segment := ListToArrays(rows);
    return Ok(BlendRequest(segment, |rows|));
  }

  ghost predicate IsListOf(list: seq<Entry>, s: Segment) {
    list == [IntEntry(s.segType), PoseEntry(s.posx1), PoseOrNone(s.posx2), NumberEntry(s.radius)]
  }

  /** What `moveb` sends determines the segments: decoding the rows of the request gives
      every one of them back. */
  lemma RequestRecoversSegments(segs: seq<Segment>, k: nat)
    requires forall i :: 0 <= i < |segs| ==> WellFormed(segs[i])
    requires k < |segs|
    ensures var sent := Lists(Arrays(EncodeRows(segs)));
      |sent| == |segs| && |sent[k]| == 14 && DecodeRow(sent[k]) == segs[k]
  {
    RowRoundTrip(segs[k], []);
  }
}
