/**
  * Virtual interrupts over every run (src/api.c), told from the calls alone: which are enabled, which are
  * FIQs, which are pending, and what a call of api_interrupt_get returns.
  */
module InterruptRuns {
  import opened Interrupts

  /** Call `i` is the last one that enables or disables interrupt `x`. */
  ghost predicate IsLast(evs: seq<Event>, x: int, i: int) {
    && 0 <= i < |evs| && evs[i].Enable? && evs[i].intid == x
    && forall j :: i < j < |evs| ==> !(evs[j].Enable? && evs[j].intid == x)
  }

  ghost predicate IsEnabled(evs: seq<Event>, x: int) {
    exists i :: IsLast(evs, x, i) && evs[i].enable
  }

  ghost predicate IsFiq(evs: seq<Event>, x: int) {
    exists i :: IsLast(evs, x, i) && evs[i].enable && evs[i].isFiq
  }

  /** It was injected, and no get returned it since. */
  ghost predicate IsPending(evs: seq<Event>, x: int)
    decreases |evs|, 1
  {
    exists i :: 0 <= i < |evs| && evs[i] == Inject(x) && !ReturnedSince(evs, x, i)
  }

  ghost predicate ReturnedSince(evs: seq<Event>, x: int, i: int)
    requires 0 <= i < |evs|
    decreases |evs|, 0
  {
    exists j :: i < j < |evs| && evs[j] == GetNext && Returns(evs[..j], x)
  }

  /** A get after these calls returns `x`: the least interrupt that is enabled and pending. */
  ghost predicate Returns(evs: seq<Event>, x: int)
    decreases |evs|, 2
  {
    && IsEnabled(evs, x) && IsPending(evs, x)
    && forall y :: IsEnabled(evs, y) && IsPending(evs, y) ==> x <= y
  }

  // ---- One call more ----

  lemma EnabledNext(evs: seq<Event>, ev: Event, x: int)
    ensures IsEnabled(evs + [ev], x) <==> if ev.Enable? && ev.intid == x then ev.enable else IsEnabled(evs, x)
    ensures IsFiq(evs + [ev], x) <==> if ev.Enable? && ev.intid == x then ev.enable && ev.isFiq else IsFiq(evs, x)
  {
    var all := evs + [ev];
    if ev.Enable? && ev.intid == x {
      assert IsLast(all, x, |evs|);
      assert forall i :: IsLast(all, x, i) ==> i == |evs|;
    } else {
      forall i
        ensures IsLast(all, x, i) <==> IsLast(evs, x, i)
      {
        if IsLast(evs, x, i) {
          assert forall j :: i < j < |all| ==> !(all[j].Enable? && all[j].intid == x);
        }
        if IsLast(all, x, i) {
          assert forall j :: i < j < |evs| ==> evs[j] == all[j];
        }
      }
    }
  }

  lemma SinceNext(evs: seq<Event>, ev: Event, x: int, i: int)
    requires 0 <= i < |evs|
    ensures ReturnedSince(evs + [ev], x, i) <==> ReturnedSince(evs, x, i) || (ev == GetNext && Returns(evs, x))
  {
    var all := evs + [ev];
    assert all[..|evs|] == evs;
    assert forall j :: 0 <= j <= |evs| ==> all[..j] == evs[..j];
    if j :| i < j < |evs| && evs[j] == GetNext && Returns(evs[..j], x) {
      assert all[j] == GetNext && Returns(all[..j], x);
    }
    if j :| i < j < |all| && all[j] == GetNext && Returns(all[..j], x) {
      assert j == |evs| || (evs[j] == GetNext && Returns(evs[..j], x));
    }
    if ev == GetNext && Returns(evs, x) {
      assert all[|evs|] == GetNext && Returns(all[..|evs|], x);
    }
  }

  lemma PendingNext(evs: seq<Event>, ev: Event, x: int)
    ensures IsPending(evs + [ev], x) <==> ev == Inject(x) || (IsPending(evs, x) && !(ev == GetNext && Returns(evs, x)))
  {
    var all := evs + [ev];
    if ev == Inject(x) {
      assert all[|evs|] == Inject(x) && !ReturnedSince(all, x, |evs|);
    } else {
      if i :| 0 <= i < |evs| && evs[i] == Inject(x) && !ReturnedSince(evs, x, i) {
        SinceNext(evs, ev, x, i);
        assert all[i] == Inject(x);
        if ev == GetNext && Returns(evs, x) {
          AllReturned(evs, ev, x);
        }
      }
      if i :| 0 <= i < |all| && all[i] == Inject(x) && !ReturnedSince(all, x, i) {
        SinceNext(evs, ev, x, i);
        assert evs[i] == Inject(x);
      }
    }
  }

  lemma AllReturned(evs: seq<Event>, ev: Event, x: int)
    requires ev == GetNext && Returns(evs, x)
    ensures !IsPending(evs + [ev], x)
  {
    var all := evs + [ev];
    forall i | 0 <= i < |all| && all[i] == Inject(x)
      ensures ReturnedSince(all, x, i)
    {
      SinceNext(evs, ev, x, i);
    }
  }

  // ---- Every run ----

  /** The three bitmaps are what the calls so far make them. */
  ghost predicate Told(s: Ints, evs: seq<Event>) {
    forall x :: (x in s.enabled <==> IsEnabled(evs, x)) && (x in s.fiq <==> IsFiq(evs, x))
      && (x in s.pending <==> IsPending(evs, x))
  }

  lemma ReturnsLeast(s: Ints, evs: seq<Event>, x: int)
    requires Told(s, evs)
    ensures Returns(evs, x) <==> Deliverable(s) != {} && x == Least(Deliverable(s))
  {
    assert forall y :: y in Deliverable(s) <==> IsEnabled(evs, y) && IsPending(evs, y);
    if Deliverable(s) != {} {
      var first := Least(Deliverable(s));
      assert first in Deliverable(s);
      assert Returns(evs, x) ==> x in Deliverable(s) && x <= first;
    }
  }

  lemma StepTold(s: Ints, evs: seq<Event>, ev: Event)
    requires Told(s, evs)
    ensures Told(Step(s, ev), evs + [ev])
  {
    var t := Step(s, ev);
    forall x
      ensures x in t.enabled <==> IsEnabled(evs + [ev], x)
      ensures x in t.fiq <==> IsFiq(evs + [ev], x)
      ensures x in t.pending <==> IsPending(evs + [ev], x)
    {
      EnabledNext(evs, ev, x);
      PendingNext(evs, ev, x);
      ReturnsLeast(s, evs, x);
    }
  }

  /** Over every run: an interrupt is enabled, and an FIQ, if the last call about it said so, and pending
      if it was injected and no get has returned it since. */
  lemma {:induction false} RunTold(s: Ints, evs: seq<Event>)
    requires Initial(s)
    ensures Told(After(s, evs), evs)
    decreases |evs|
  {
    if evs != [] {
      var before := evs[..|evs| - 1];
      RunTold(s, before);
      StepTold(After(s, before), before, evs[|evs| - 1]);
      assert evs == before + [evs[|evs| - 1]];
    }
  }

  /** The next get returns an interrupt exactly when it is the least one that the calls so far left enabled
      and pending, and takes that one only. */
  lemma GetReturns(s: Ints, evs: seq<Event>, x: int)
    requires Initial(s)
    ensures var t := After(s, evs);
            && (Returns(evs, x) <==> Deliverable(t) != {} && x == Least(Deliverable(t)))
            && (Returns(evs, x) ==> Step(t, GetNext).pending == t.pending - {x})
  {
    RunTold(s, evs);
    ReturnsLeast(After(s, evs), evs, x);
  }
}
