/** The two analog outputs of the control box: a channel's mode must be selected before a
    value is sent on it, and the value must lie in that mode's range. */
module AnalogOutput {
  import opened Values

  const DR_ANALOG_CURRENT := 0
  const DR_ANALOG_VOLTAGE := 1
  const UNSET := -1

  /** What reaches the control box. */
  datatype Request = SelectMode(ch: int, mode: int) | SendValue(ch: int, val: real)

  predicate InRange(mode: int, val: real) {
    (mode == DR_ANALOG_CURRENT && 4.0 <= val <= 20.0) || (mode == DR_ANALOG_VOLTAGE && 0.0 <= val <= 10.0)
  }

  /** The mode the last selection for `ch` in `trace` asked for, -1 if there is none. */
  function LatestMode(trace: seq<Request>, ch: int): int {
    if trace == [] then UNSET
    else
      var last := trace[|trace| - 1];
      if last.SelectMode? && last.ch == ch then last.mode else LatestMode(trace[..|trace| - 1], ch)
  }

  /** Every value in the trace is preceded by a selection for its channel and lies in the
      range of the latest one. */
  ghost predicate SafeTrace(trace: seq<Request>) {
    forall i :: 0 <= i < |trace| && trace[i].SendValue? ==>
      1 <= trace[i].ch <= 2 && InRange(LatestMode(trace[..i], trace[i].ch), trace[i].val)
  }

  lemma SafeSnoc(trace: seq<Request>, r: Request)
    requires SafeTrace(trace)
    requires r.SendValue? ==> 1 <= r.ch <= 2 && InRange(LatestMode(trace, r.ch), r.val)
    ensures SafeTrace(trace + [r])
  {
    var all := trace + [r];
    forall i | 0 <= i < |all| && all[i].SendValue?
      ensures 1 <= all[i].ch <= 2 && InRange(LatestMode(all[..i], all[i].ch), all[i].val)
    {
      if i < |trace| {
        assert all[i] == trace[i] && all[..i] == trace[..i];
      } else {
        assert all[..i] == trace;
      }
    }
  }

  lemma LatestSnoc(trace: seq<Request>, r: Request, ch: int)
    ensures LatestMode(trace + [r], ch) == if r.SelectMode? && r.ch == ch then r.mode else LatestMode(trace, ch)
  {
    assert (trace + [r])[..|trace|] == trace;
  }

  /** The selection at `j` is the last one in `trace` for channel `ch`. */
  ghost predicate IsLatest(trace: seq<Request>, j: int, ch: int) {
    && 0 <= j < |trace| && trace[j].SelectMode? && trace[j].ch == ch
    && forall k :: j < k < |trace| ==> !(trace[k].SelectMode? && trace[k].ch == ch)
  }

  /** There is a selection behind every mode that is set. */
  lemma {:induction false} LatestModeWasSelected(trace: seq<Request>, ch: int)
    requires LatestMode(trace, ch) != UNSET
    ensures exists j :: IsLatest(trace, j, ch) && trace[j].mode == LatestMode(trace, ch)
  {
    var n := |trace| - 1;
    if trace[n].SelectMode? && trace[n].ch == ch {
      assert IsLatest(trace, n, ch);
    } else {
      LatestModeWasSelected(trace[..n], ch);
      var j :| IsLatest(trace[..n], j, ch) && trace[..n][j].mode == LatestMode(trace[..n], ch);
      assert forall k :: 0 <= k < n ==> trace[..n][k] == trace[k];
      assert IsLatest(trace, j, ch);
    }
  }

  /** Trace safety, in terms of positions: a value at `i` has, somewhere before it, the
      last selection for its channel, and lies in that selection's range. */
  lemma ValuesFollowSelections(trace: seq<Request>, i: nat)
    requires SafeTrace(trace) && i < |trace| && trace[i].SendValue?
    ensures exists j ::
      && IsLatest(trace[..i], j, trace[i].ch)
      && (trace[..i][j].mode == 0 ==> 4.0 <= trace[i].val <= 20.0)
      && (trace[..i][j].mode != 0 ==> trace[..i][j].mode == 1 && 0.0 <= trace[i].val <= 10.0)
  {
    var before, ch := trace[..i], trace[i].ch;
    LatestModeWasSelected(before, ch);
    var j :| IsLatest(before, j, ch) && before[j].mode == LatestMode(before, ch);
  }

  /** The two channels do not touch each other's modes. */
  lemma ChannelsIndependent(trace: seq<Request>, r: Request, ch: int)
    requires r.ch != ch
    ensures LatestMode(trace + [r], ch) == LatestMode(trace, ch)
  {
    LatestSnoc(trace, r, ch);
  }

  class AnalogPorts {
    var modeCh1: int
    var modeCh2: int
    var trace: seq<Request>   // the requests made so far

    ghost predicate Valid()
      reads this
    {
      && SafeTrace(trace)
      && modeCh1 == LatestMode(trace, 1) && modeCh2 == LatestMode(trace, 2)
    }

    constructor ()
      ensures Valid() && trace == []
    {
      modeCh1, modeCh2, trace := UNSET, UNSET, [];
    }

    method Send(request: Request)
      requires SafeTrace(trace)
      requires request.SendValue? ==> 1 <= request.ch <= 2 && InRange(LatestMode(trace, request.ch), request.val)
      modifies this`trace
      ensures trace == old(trace) + [request] && SafeTrace(trace)
      ensures forall ch ::
        LatestMode(trace, ch) ==
          (if request.SelectMode? && request.ch == ch then request.mode else LatestMode(old(trace), ch))
    {
      SafeSnoc(trace, request);
      forall ch { LatestSnoc(trace, request, ch); }
      trace := trace + [request];
    }

    method SetModeAnalogOutput(ch: Arg, mod: Arg) returns (r: Result<Request>)
      requires Valid()
      modifies this
      ensures Valid()
      ensures r == if !ch.Int? || !mod.Int? then Err(TypeError)
                   else if ch.i < 1 || ch.i > 2 then Err(ValueError)
                   else if mod.i != DR_ANALOG_CURRENT && mod.i != DR_ANALOG_VOLTAGE then Err(ValueError)
                   else Ok(SelectMode(ch.i, mod.i))
      ensures trace == if r.Ok? then old(trace) + [r.value] else old(trace)
    {
      hide LatestMode, SafeTrace, InRange;
      if !ch.Int? { return Err(TypeError); }
      if !mod.Int? { return Err(TypeError); }
      if ch.i < 1 || ch.i > 2 { return Err(ValueError); }
      if mod.i != DR_ANALOG_CURRENT && mod.i != DR_ANALOG_VOLTAGE { return Err(ValueError); }
      if ch.i == 1 { modeCh1 := mod.i; }
      if ch.i == 2 { modeCh2 := mod.i; }
      var request := SelectMode(ch.i, mod.i);
      Send(request);
      return Ok(request);
    }

    /** A value is sent exactly when its channel exists and it lies in the range of the
        channel's latest selection. */
    method SetAnalogOutput(ch: Arg, val: Arg) returns (r: Result<Request>)
      requires Valid()
      modifies this
      ensures Valid() && modeCh1 == old(modeCh1) && modeCh2 == old(modeCh2)
      ensures r == if !ch.Int? || !IsNumber(val) then Err(TypeError)
                   else if 1 <= ch.i <= 2 && InRange(LatestMode(old(trace), ch.i), Number(val)) then
                     Ok(SendValue(ch.i, Number(val)))
                   else Err(ValueError)
      ensures trace == if r.Ok? then old(trace) + [r.value] else old(trace)
    {
      hide LatestMode, SafeTrace;
      if !ch.Int? { return Err(TypeError); }
      if !IsNumber(val) { return Err(TypeError); }
      if ch.i < 1 || ch.i > 2 { return Err(ValueError); }
      var v := Number(val);
      if ch.i == 1 {
        if modeCh1 == DR_ANALOG_CURRENT {
          if v < 4.0 || v > 20.0 { return Err(ValueError); }
        } else if modeCh1 == DR_ANALOG_VOLTAGE {
          if v < 0.0 || v > 10.0 { return Err(ValueError); }
        } else {
          return Err(ValueError);
        }
      }
      if ch.i == 2 {
        if modeCh2 == DR_ANALOG_CURRENT {
          if v < 4.0 || v > 20.0 { return Err(ValueError); }
        } else if modeCh2 == DR_ANALOG_VOLTAGE {
          if v < 0.0 || v > 10.0 { return Err(ValueError); }
        } else {
          return Err(ValueError);
        }
      }
      var request := SendValue(ch.i, v);
      Send(request);
      return Ok(request);
    }
  }
}
