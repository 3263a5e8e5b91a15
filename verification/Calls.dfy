/** The PM's calls, their extensions and their tightenings (desk/calls.py).
    A call's id is its position in the table. */
module Calls {
  import opened Basics
  import opened Clock

  datatype Origin = FromPitch | FromPm | Legacy

  datatype Funding = Unfunded | FundShares | FundCall | FundPut

  datatype Call = Call(
    madeAt: Time, session: int, origin: Origin, parent: Option<nat>, symbol: string, direction: Direction,
    target: real, invalidation: real, horizon: int, conviction: int, benchmark: string,
    refPrice: real, spyRef: real, benchRef: real, funding: Funding)

  datatype Tightening = Tightening(callId: nat, at: Time, invalidation: real)

  /** `extends_call_id` references an earlier row: the table is append-only and the reference is checked on insert. */
  ghost predicate Forward(calls: seq<Call>) {
    forall i :: 0 <= i < |calls| && calls[i].parent.Some? ==> calls[i].parent.value < i
  }

  type CallTable = calls: seq<Call> | Forward(calls)

  /** Positive levels with the stamped price strictly between them, the target on the call's side. */
  predicate LevelsStand(c: Call) {
    && 0.0 < c.target && 0.0 < c.invalidation
    && if c.direction.Up? then c.target > c.refPrice > c.invalidation else c.target < c.refPrice < c.invalidation
  }

  /** The first call that extends `id`. */
  function ExtensionOf(calls: seq<Call>, id: nat): (r: Option<nat>)
    ensures r.Some? ==> r.value < |calls| && calls[r.value].parent == Some(id)
    ensures r.None? <==> forall i :: 0 <= i < |calls| ==> calls[i].parent != Some(id)
  {
    if calls == [] then None
    else
      var last := |calls| - 1;
      var r := ExtensionOf(calls[..last], id);
      if r.Some? then r else if calls[last].parent == Some(id) then Some(last) else None
  }

  function CurrentCall(calls: CallTable, id: nat): (r: nat)
    ensures id <= r && (id < |calls| ==> r < |calls|)
    ensures ExtensionOf(calls, r).None?
    decreases |calls| - id
  {
    var e := ExtensionOf(calls, id);
    if e.None? then id else CurrentCall(calls, e.value)
  }

  method CurrentCallId(calls: CallTable, id: nat) returns (cur: nat)
    ensures cur == CurrentCall(calls, id)
  {
    cur := id;
    while true
      invariant CurrentCall(calls, cur) == CurrentCall(calls, id)
      decreases |calls| - cur
    {
      var row := ExtensionOf(calls, cur);
      if row.None? {
        return;
      }
      cur := row.value;
    }
  }

  /** No call is extended twice and no extension is itself extended. */
  ghost predicate OneExtensionEach(calls: seq<Call>) {
    && (forall i, j | 0 <= i < |calls| && 0 <= j < |calls| && calls[i].parent.Some? ::
          calls[i].parent == calls[j].parent ==> i == j)
    && (forall i, j | 0 <= i < |calls| && 0 <= j < |calls| :: calls[i].parent == Some(j) ==> calls[j].parent.None?)
  }

  /** Following extensions answers the call itself or its one extension. */
  lemma CurrentIsCallOrItsExtension(calls: CallTable, id: nat)
    requires OneExtensionEach(calls)
    ensures CurrentCall(calls, id) == id || (CurrentCall(calls, id) < |calls| && calls[CurrentCall(calls, id)].parent == Some(id))
    ensures forall e :: 0 <= e < |calls| && calls[e].parent == Some(id) ==> CurrentCall(calls, id) == e
  {
    var e := ExtensionOf(calls, id);
    if e.Some? {
      assert calls[id].parent.None? || id >= |calls|;
      assert ExtensionOf(calls, e.value).None?;
      assert CurrentCall(calls, e.value) == e.value;
    }
  }

  lemma ExtensionAfterAppend(calls: seq<Call>, c: Call, id: nat)
    ensures ExtensionOf(calls + [c], id) ==
            if ExtensionOf(calls, id).Some? then ExtensionOf(calls, id)
            else if c.parent == Some(id) then Some(|calls|) else None
  {
    assert (calls + [c])[..|calls|] == calls;
  }

  /** A call that extends nothing changes no other call's governing call. */
  lemma {:induction false} CurrentAfterNewCall(calls: CallTable, c: Call, id: nat)
    requires c.parent.None?
    ensures Forward(calls + [c]) && CurrentCall(calls + [c], id) == CurrentCall(calls, id)
    decreases |calls| - id
  {
    ExtensionAfterAppend(calls, c, id);
    var e := ExtensionOf(calls, id);
    if e.Some? {
      CurrentAfterNewCall(calls, c, e.value);
    }
  }

  lemma AppendKeepsOneExtension(calls: CallTable, c: Call)
    requires OneExtensionEach(calls)
    requires c.parent.Some? ==>
               c.parent.value < |calls| && calls[c.parent.value].parent.None? && ExtensionOf(calls, c.parent.value).None?
    ensures Forward(calls + [c]) && OneExtensionEach(calls + [c])
  {
    forall i, j | 0 <= i < |calls + [c]| && 0 <= j < |calls + [c]| && (calls + [c])[i].parent == Some(j)
      ensures (calls + [c])[j].parent.None?
    {
      if i < |calls| {
        assert j < i;
      }
    }
  }

  /** The latest tightening of `id`, if any. */
  function LastTightening(ts: seq<Tightening>, id: nat): Option<real> {
    if ts == [] then None
    else if ts[|ts| - 1].callId == id then Some(ts[|ts| - 1].invalidation)
    else LastTightening(ts[..|ts| - 1], id)
  }

  /** The governing level is the newest tightening of the call, and the call's own level while there is none. */
  lemma {:induction false} NewestTighteningGoverns(calls: seq<Call>, ts: seq<Tightening>, id: nat, k: nat)
    requires id < |calls|
    ensures (forall j :: 0 <= j < |ts| ==> ts[j].callId != id) ==> EffectiveInvalidation(calls, ts, id) == calls[id].invalidation
    ensures k < |ts| && ts[k].callId == id && (forall j :: k < j < |ts| ==> ts[j].callId != id) ==>
              EffectiveInvalidation(calls, ts, id) == ts[k].invalidation
  {
    if ts != [] {
      NewestTighteningGoverns(calls, ts[..|ts| - 1], id, k);
    }
  }

  function EffectiveInvalidation(calls: seq<Call>, ts: seq<Tightening>, id: nat): real
    requires id < |calls|
  {
    var t := LastTightening(ts, id);
    if t.None? then calls[id].invalidation else t.value
  }
}
