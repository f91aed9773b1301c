/** Deferred actions, the per-call stack they are pushed on, and the two
    loops that drain it last-to-first. */
module Deferreds {
  import opened JsValues
  import opened ErrorSentinel

  datatype Option<T> = None | Some(value: T)

  /** What calling a deferred action does, besides its own effect: it
      returns normally, throws, or returns a pending outcome that rejects. */
  datatype Behaviour = Completes | Throws(error: Value) | Rejects(reason: Value)

  /** A registered deferred action: an abstract identity (running it is
      observed as its id), how the call ends, and what a wrapped call nested
      inside it leaves in the module-level `errorWrapper.error`: `None` when
      it makes no such call or leaves the slot as it found it, `Some(v)` when
      the slot holds `v` afterwards (`null` after a nested throw that was
      forwarded, the nested error when a nested drain escaped before
      forwarding). */
  datatype Deferred = Deferred(id: nat, behaviour: Behaviour, slot: Option<Value>)

  /** The ids of the deferreds that ran, in the order they ran, and the
      error that ended the drain early, if any. */
  datatype DrainResult = DrainResult(ran: seq<nat>, escaped: Option<Value>)

  /** The error with which running a deferred ends the drain. A thrown error
      always escapes; a rejection matters only when each deferred's result is
      awaited (the asynchronous path), and is ignored by the synchronous loop. */
  function Escape(b: Behaviour, awaited: bool): Option<Value> {
    match b
    case Completes => None
    case Throws(e) => Some(e)
    case Rejects(e) => if awaited then Some(e) else None
  }

  /** No deferred of `ds` ends a drain early. */
  predicate Clean(ds: seq<Deferred>, awaited: bool) {
    forall j :: 0 <= j < |ds| ==> Escape(ds[j].behaviour, awaited).None?
  }

  function Ids(ds: seq<Deferred>): seq<nat> {
    seq(|ds|, k requires 0 <= k < |ds| => ds[k].id)
  }

  function Reversed<T>(s: seq<T>): seq<T> {
    seq(|s|, k requires 0 <= k < |s| => s[|s| - 1 - k])
  }

  /** Draining a stack: the last deferred runs first; the first one whose
      call escapes stops the drain, and the ones registered before it never run. */
  function Drain(ds: seq<Deferred>, awaited: bool): (r: DrainResult)
    ensures |r.ran| <= |ds|
    ensures 0 < |ds| ==> 0 < |r.ran|
    ensures r.escaped.None? ==> |r.ran| == |ds|
    decreases |ds|
  {
    if |ds| == 0 then DrainResult([], None)
    else
      var last := ds[|ds| - 1];
      var stop := Escape(last.behaviour, awaited);
      if stop.Some? then DrainResult([last.id], stop)
      else
        var rest := Drain(ds[..|ds| - 1], awaited);
        DrainResult([last.id] + rest.ran, rest.escaped)
  }

  /** The shared sentinel slot once `d` has run, starting from `slot`. */
  function Leave(d: Deferred, slot: Value): Value {
    match d.slot
    case None => slot
    case Some(v) => v
  }

  /** The shared sentinel slot after draining `ds` from `slot`: each deferred
      that ran, last to first, leaves its mark, up to and including the one
      that ends the drain. */
  function SlotAfterDrain(ds: seq<Deferred>, awaited: bool, slot: Value): Value
    decreases |ds|
  {
    if |ds| == 0 then slot
    else
      var last := ds[|ds| - 1];
      var after := Leave(last, slot);
      if Escape(last.behaviour, awaited).Some? then after
      else SlotAfterDrain(ds[..|ds| - 1], awaited, after)
  }

  /** No deferred of `ds` makes a nested wrapped call that touches the slot. */
  predicate Quiet(ds: seq<Deferred>) {
    forall j :: 0 <= j < |ds| ==> ds[j].slot.None?
  }

  /** Draining deferreds that leave the slot alone leaves it as it was. */
  lemma {:induction false} QuietKeepsSlot(ds: seq<Deferred>, awaited: bool, slot: Value)
    requires Quiet(ds)
    ensures SlotAfterDrain(ds, awaited, slot) == slot
    decreases |ds|
  {
    if |ds| > 0 {
      var init := ds[..|ds| - 1];
      assert ds[|ds| - 1].slot.None?;
      forall j | 0 <= j < |init| ensures init[j].slot.None? {
        assert init[j] == ds[j];
      }
      QuietKeepsSlot(init, awaited, slot);
    }
  }

  /** One step of a drain over a prefix of the stack: `ds[i - 1]` runs, and
      either ends the drain or the drain goes on below it. */
  lemma DrainStep(ds: seq<Deferred>, i: nat, awaited: bool, slot: Value)
    requires 0 < i <= |ds|
    ensures var stop := Escape(ds[i - 1].behaviour, awaited);
      Drain(ds[..i], awaited) ==
        if stop.Some? then DrainResult([ds[i - 1].id], stop)
        else DrainResult([ds[i - 1].id] + Drain(ds[..i - 1], awaited).ran, Drain(ds[..i - 1], awaited).escaped)
    ensures SlotAfterDrain(ds[..i], awaited, slot) ==
      if Escape(ds[i - 1].behaviour, awaited).Some? then Leave(ds[i - 1], slot)
      else SlotAfterDrain(ds[..i - 1], awaited, Leave(ds[i - 1], slot))
  {
    assert ds[..i][..i - 1] == ds[..i - 1];
  }

  /** Clean of a stack is clean of everything below the top, and of the top. */
  lemma CleanSplit(ds: seq<Deferred>, awaited: bool)
    requires 0 < |ds|
    ensures Clean(ds, awaited) <==>
      Clean(ds[..|ds| - 1], awaited) && Escape(ds[|ds| - 1].behaviour, awaited).None?
  {
    var init := ds[..|ds| - 1];
    if Clean(init, awaited) && Escape(ds[|ds| - 1].behaviour, awaited).None? {
      forall j | 0 <= j < |ds| ensures Escape(ds[j].behaviour, awaited).None? {
        if j < |init| { assert ds[j] == init[j]; }
      }
    }
    if Clean(ds, awaited) {
      forall j | 0 <= j < |init| ensures Escape(init[j].behaviour, awaited).None? {
        assert init[j] == ds[j];
      }
    }
  }

  /** The k-th deferred to run is the k-th from the top of the stack, and
      every one that ran except the last (the lowest) returned normally. */
  lemma {:induction false} DrainPositions(ds: seq<Deferred>, awaited: bool)
    ensures var r := Drain(ds, awaited);
      && |r.ran| <= |ds|
      && (forall k :: 0 <= k < |r.ran| ==> r.ran[k] == ds[|ds| - 1 - k].id)
      && (forall j :: |ds| - |r.ran| < j < |ds| ==> Escape(ds[j].behaviour, awaited).None?)
    decreases |ds|
  {
    if |ds| > 0 && Escape(ds[|ds| - 1].behaviour, awaited).None? {
      var init := ds[..|ds| - 1];
      DrainPositions(init, awaited);
      var rest := Drain(init, awaited);
      var r := Drain(ds, awaited);
      assert r.ran == [ds[|ds| - 1].id] + rest.ran;
      forall k | 1 <= k < |r.ran| ensures r.ran[k] == ds[|ds| - 1 - k].id {
        assert r.ran[k] == rest.ran[k - 1];
        assert init[|init| - 1 - (k - 1)] == ds[|ds| - 1 - k];
      }
      forall j | |ds| - |r.ran| < j < |ds| ensures Escape(ds[j].behaviour, awaited).None? {
        if j < |init| { assert ds[j] == init[j]; }
      }
    }
  }

  /** The drain ends early exactly when the stack is not clean, and then with
      the error of the last deferred that ran; otherwise every deferred ran. */
  lemma {:induction false} DrainEscape(ds: seq<Deferred>, awaited: bool)
    ensures var r := Drain(ds, awaited);
      && (r.escaped.None? <==> Clean(ds, awaited))
      && (r.escaped.None? ==> |r.ran| == |ds|)
      && (r.escaped.Some? ==> 0 < |r.ran| <= |ds| && r.escaped == Escape(ds[|ds| - |r.ran|].behaviour, awaited))
    decreases |ds|
  {
    if |ds| > 0 {
      CleanSplit(ds, awaited);
      if Escape(ds[|ds| - 1].behaviour, awaited).None? {
        var init := ds[..|ds| - 1];
        DrainEscape(init, awaited);
        var rest := Drain(init, awaited);
        assert Drain(ds, awaited) == DrainResult([ds[|ds| - 1].id] + rest.ran, rest.escaped);
        if rest.escaped.Some? {
          assert init[|init| - |rest.ran|] == ds[|ds| - (1 + |rest.ran|)];
        }
      }
    }
  }

  /** A clean stack is drained completely, in exact reverse registration
      order, and the drain does not end early; a stack that is not clean ends
      the drain early. */
  lemma {:induction false} DrainClean(ds: seq<Deferred>, awaited: bool)
    ensures Clean(ds, awaited) <==> Drain(ds, awaited).escaped.None?
    ensures Clean(ds, awaited) ==> Drain(ds, awaited).ran == Reversed(Ids(ds))
  {
    DrainPositions(ds, awaited);
    DrainEscape(ds, awaited);
  }

  /** When `ds[j]` is the most recently registered deferred that escapes, the
      drain runs exactly the deferreds from the top down to `ds[j]` and ends
      with `ds[j]`'s error: the ones registered before it are skipped. */
  lemma {:induction false} DrainStopsAt(ds: seq<Deferred>, awaited: bool, j: nat)
    requires j < |ds| && Escape(ds[j].behaviour, awaited).Some?
    requires forall m :: j < m < |ds| ==> Escape(ds[m].behaviour, awaited).None?
    ensures Drain(ds, awaited).ran == Reversed(Ids(ds[j..]))
    ensures Drain(ds, awaited).escaped == Escape(ds[j].behaviour, awaited)
  {
    DrainPositions(ds, awaited);
    DrainEscape(ds, awaited);
    var r := Drain(ds, awaited);
    assert !Clean(ds, awaited);
    var n := |r.ran|;
    assert Escape(ds[|ds| - n].behaviour, awaited).Some?;
    assert n == |ds| - j;
  }

  /** The per-call stack `deferreds`, and the registration callback that the
      work receives as its first argument. */
  class Registrar {
    var deferreds: seq<Deferred>

    constructor ()
      ensures deferreds == []
    {
      deferreds := [];
    }

    /** The callback `deferred => { deferreds.push(deferred) }`: it only
      appends, and never runs the action. */
    method Register(d: Deferred)
      modifies this
      ensures deferreds == old(deferreds) + [d]
    {
      deferreds := deferreds + [d];
    }

    /** The work calling the callback once per deferred, in order. */
    method RegisterEach(ds: seq<Deferred>)
      modifies this
      ensures deferreds == old(deferreds) + ds
    {
      for k := 0 to |ds|
        invariant deferreds == old(deferreds) + ds[..k]
      {
        Register(ds[k]);
        assert ds[..k + 1] == ds[..k] + [ds[k]];
      }
    }

    /** The synchronous drain `while (i > 0) deferreds[--i]()`. A deferred
        that throws ends the loop: its error escapes. Wrapped calls nested in
        the deferreds share the sentinel `w`. */
    method RunNow(w: ErrorWrapper) returns (r: DrainResult)
      modifies w
      ensures r == Drain(deferreds, false)
      ensures w.error == SlotAfterDrain(deferreds, false, old(w.error))
    {
      var i := |deferreds|;
      var ran := [];
      assert deferreds[..i] == deferreds;
      while i > 0
        invariant 0 <= i <= |deferreds|
        invariant Drain(deferreds, false) ==
          DrainResult(ran + Drain(deferreds[..i], false).ran, Drain(deferreds[..i], false).escaped)
        invariant SlotAfterDrain(deferreds, false, old(w.error)) == SlotAfterDrain(deferreds[..i], false, w.error)
      {
        DrainStep(deferreds, i, false, w.error);
        i := i - 1;
        var d := deferreds[i];
        ran := ran + [d.id];
        if d.slot.Some? {
          w.error := d.slot.value;
        }
        var stop := Escape(d.behaviour, false);
        if stop.Some? {
          return DrainResult(ran, stop);
        }
      }
      r := DrainResult(ran, None);
    }

    /** `executeAndForward` once the work's pending outcome has settled as
        `result`: the recursive `loop` awaits each deferred in turn, last to
        first, and finally adopts `result`. A deferred that throws or whose
        result rejects rejects the whole chain and ends the loop. Wrapped
        calls nested in the deferreds share the sentinel `w`. */
    method ExecuteAndForward(w: ErrorWrapper, result: Settlement) returns (ran: seq<nat>, settled: Settlement)
      modifies w
      ensures ran == Drain(deferreds, true).ran
      ensures settled == match Drain(deferreds, true).escaped
                         case None => result
                         case Some(e) => Rejected(e)
      ensures w.error == SlotAfterDrain(deferreds, true, old(w.error))
    {
      var i := |deferreds|;
      ran := [];
      assert deferreds[..i] == deferreds;
      while i > 0
        invariant 0 <= i <= |deferreds|
        invariant Drain(deferreds, true) ==
          DrainResult(ran + Drain(deferreds[..i], true).ran, Drain(deferreds[..i], true).escaped)
        invariant SlotAfterDrain(deferreds, true, old(w.error)) == SlotAfterDrain(deferreds[..i], true, w.error)
      {
        DrainStep(deferreds, i, true, w.error);
        i := i - 1;
        var d := deferreds[i];
        ran := ran + [d.id];
        if d.slot.Some? {
          w.error := d.slot.value;
        }
        var stop := Escape(d.behaviour, true);
        if stop.Some? {
          return ran, Rejected(stop.value);
        }
      }
      settled := result;
    }
  }
}
