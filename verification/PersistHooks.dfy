/** Hooks that run after the items of a request have been persisted. Registration, batches in
    progress and their completion interleave freely. */
module PersistHooks {
  import opened Seqs

  type Owner = nat
  type Hook = nat

  /** `pending` lists the owner of every buffered item. A flush in progress has owners it has
      not reached yet; `saved` tells that its batch has persisted and acknowledging began.
      `raised` are owners of batches that raised; `ran` lists the hooks run so far. */
  datatype Flush = Flush(owners: set<Owner>, saved: bool)

  datatype State = State(pending: seq<Owner>, flushes: map<nat, Flush>, hooks: map<Owner, seq<Hook>>,
                         ran: seq<Hook>, raised: set<Owner>, issued: set<Hook>)

  const INIT := State([], map[], map[], [], {}, {})

  datatype Step =
    | Put(o: Owner)
    | Swap(f: nat)
    | Persisted(f: nat)
    | Reach(f: nat, o: Owner)
    | Raised(f: nat)
    | RegisterIfPending(o: Owner, h: Hook)

  predicate Enabled(s: State, step: Step) {
    match step
    case Put(_) => true
    case Swap(f) => f !in s.flushes
    case Persisted(f) => f in s.flushes && !s.flushes[f].saved
    case Reach(f, o) => f in s.flushes && s.flushes[f].saved && o in s.flushes[f].owners
    case Raised(f) => f in s.flushes && !s.flushes[f].saved
    case RegisterIfPending(_, h) => h !in s.issued
  }

  function Add(hooks: map<Owner, seq<Hook>>, o: Owner, h: Hook): map<Owner, seq<Hook>> {
    hooks[o := (if o in hooks then hooks[o] else []) + [h]]
  }

  /** Check and registration happen under one lock; a refused hook is run by the caller. */
  function Apply(s: State, step: Step): State
    requires Enabled(s, step)
  {
    match step
    case Put(o) => s.(pending := s.pending + [o])
    case Swap(f) => s.(flushes := s.flushes[f := Flush(Elems(s.pending), false)], pending := [])
    case Persisted(f) => s.(flushes := s.flushes[f := s.flushes[f].(saved := true)])
    case Reach(f, o) =>
      s.(flushes := s.flushes[f := s.flushes[f].(owners := s.flushes[f].owners - {o})], hooks := s.hooks - {o},
         ran := s.ran + if o in s.hooks then s.hooks[o] else [])
    case Raised(f) => s.(flushes := s.flushes - {f}, raised := s.raised + s.flushes[f].owners)
    case RegisterIfPending(o, h) =>
      var t := s.(issued := s.issued + {h});
      if o in s.pending then t.(hooks := Add(s.hooks, o, h)) else t.(ran := s.ran + [h])
  }

  function Exec(steps: seq<Step>): Option<State> {
    if steps == [] then Some(INIT)
    else
      var n := |steps| - 1;
      var s := Exec(steps[..n]);
      if s.Some? && Enabled(s.value, steps[n]) then Some(Apply(s.value, steps[n])) else None
  }

  // ---------------------------------------------------------------- never stranded

  ghost predicate InFlush(s: State, o: Owner) {
    exists f :: f in s.flushes && o in s.flushes[f].owners
  }

  /** Something will still run or report the hooks of `o`. */
  ghost predicate Expected(s: State, o: Owner) {
    o in s.pending || InFlush(s, o) || o in s.raised
  }

  lemma ExpectedStep(s: State, step: Step, o: Owner)
    requires Enabled(s, step) && Expected(s, o) && !(step.Reach? && step.o == o)
    ensures Expected(Apply(s, step), o)
  {
    var t := Apply(s, step);
    if o in s.pending {
      if step.Swap? {
        assert o in t.flushes[step.f].owners;
      } else if step.Put? {
        assert o in t.pending;
      }
    } else if InFlush(s, o) {
      var f :| f in s.flushes && o in s.flushes[f].owners;
      if !(step.Raised? && step.f == f) {
        assert f in t.flushes && o in t.flushes[f].owners;
      }
    }
  }

  /** While a hook is registered, its owner has items pending, is in a flush in progress, or
      was in a flush that raised. */
  lemma {:induction false} NeverStranded(steps: seq<Step>, o: Owner)
    requires Exec(steps).Some? && o in Exec(steps).value.hooks
    ensures Expected(Exec(steps).value, o)
  {
    if steps != [] {
      var n := |steps| - 1;
      var s := Exec(steps[..n]).value;
      if o in s.hooks {
        NeverStranded(steps[..n], o);
        ExpectedStep(s, steps[n], o);
      }
    }
  }

  // ---------------------------------------------------------------- at most once

  function Times(s: seq<Hook>, h: Hook): nat {
    if s == [] then 0 else Times(s[..|s| - 1], h) + if s[|s| - 1] == h then 1 else 0
  }

  lemma {:induction false} TimesConcat(s: seq<Hook>, t: seq<Hook>, h: Hook)
    ensures Times(s + t, h) == Times(s, h) + Times(t, h)
  {
    if t == [] {
      assert s + t == s;
    } else {
      var n := |t| - 1;
      TimesConcat(s, t[..n], h);
      assert (s + t)[..|s + t| - 1] == s + t[..n];
    }
  }

  lemma TimesLast(s: seq<Hook>, k: Hook, h: Hook)
    ensures Times(s + [k], h) == Times(s, h) + if k == h then 1 else 0
  {
    assert (s + [k])[..|s|] == s;
  }

  /** How often `h` is registered with `o`. */
  function At(hooks: map<Owner, seq<Hook>>, o: Owner, h: Hook): nat {
    if o in hooks then Times(hooks[o], h) else 0
  }

  /** `h` is registered with at most one owner, once, and not if it has run already; a hook
      never issued is nowhere. */
  ghost predicate OnceOk(s: State, h: Hook) {
    && Times(s.ran, h) <= 1
    && (forall o :: At(s.hooks, o, h) + Times(s.ran, h) <= 1)
    && (forall o, p | o != p :: At(s.hooks, o, h) + At(s.hooks, p, h) <= 1)
    && (h !in s.issued ==> Times(s.ran, h) == 0 && forall o :: At(s.hooks, o, h) == 0)
  }

  lemma AddAt(hooks: map<Owner, seq<Hook>>, o: Owner, k: Hook, p: Owner, h: Hook)
    ensures At(Add(hooks, o, k), p, h) == At(hooks, p, h) + if p == o && k == h then 1 else 0
  {
    TimesConcat(if o in hooks then hooks[o] else [], [k], h);
    assert [k][..0] == [];
  }

  lemma ReachOnce(s: State, step: Step, h: Hook)
    requires Enabled(s, step) && OnceOk(s, h) && step.Reach?
    ensures OnceOk(Apply(s, step), h)
  {
    TimesConcat(s.ran, if step.o in s.hooks then s.hooks[step.o] else [], h);
    var t := Apply(s, step);
    assert Times(t.ran, h) == Times(s.ran, h) + At(s.hooks, step.o, h);
    assert forall o :: At(t.hooks, o, h) == if o == step.o then 0 else At(s.hooks, o, h);
    hide At, Times;
  }

  lemma RegisterOnce(s: State, step: Step, h: Hook)
    requires Enabled(s, step) && OnceOk(s, h) && step.RegisterIfPending?
    ensures OnceOk(Apply(s, step), h)
  {
    hide At, Times, Add;
    TimesLast(s.ran, step.h, h);
    var t := Apply(s, step);
    forall o
      ensures At(Add(s.hooks, step.o, step.h), o, h) == At(s.hooks, o, h) + if o == step.o && step.h == h then 1 else 0
    {
      AddAt(s.hooks, step.o, step.h, o, h);
    }
  }

  lemma OnceStep(s: State, step: Step, h: Hook)
    requires Enabled(s, step) && OnceOk(s, h)
    ensures OnceOk(Apply(s, step), h)
  {
    if step.Reach? {
      ReachOnce(s, step, h);
    } else if step.RegisterIfPending? {
      RegisterOnce(s, step, h);
    }
  }

  /** In every interleaving a hook runs at most once, and not while it is still registered. */
  lemma {:induction false} HookRunsAtMostOnce(steps: seq<Step>, h: Hook)
    requires Exec(steps).Some?
    ensures OnceOk(Exec(steps).value, h)
  {
    if steps != [] {
      var n := |steps| - 1;
      HookRunsAtMostOnce(steps[..n], h);
      OnceStep(Exec(steps[..n]).value, steps[n], h);
    }
  }

  // ---------------------------------------------------------------- the two-step form

  /** Registration without the check, as after a separate `owns` call. */
  function RegisterBlind(s: State, o: Owner, h: Hook): State {
    s.(hooks := Add(s.hooks, o, h), issued := s.issued + {h})
  }

  lemma ExecSnoc(steps: seq<Step>, step: Step)
    requires Exec(steps).Some? && Enabled(Exec(steps).value, step)
    ensures Exec(steps + [step]) == Some(Apply(Exec(steps).value, step))
  {
    assert (steps + [step])[..|steps|] == steps;
  }

  /** Asking `owns` first and registering in a second step breaks this. In a run from the start
      the check succeeds after `checked` steps, a flush runs to its end after it, and the hook
      registered then is stranded. */
  lemma CheckThenRegisterStrands(o: Owner, h: Hook) returns (steps: seq<Step>, checked: nat)
    ensures checked <= |steps| && Exec(steps[..checked]).Some? && o in Exec(steps[..checked]).value.pending
    ensures Exec(steps).Some?
    ensures var s := RegisterBlind(Exec(steps).value, o, h); o in s.hooks && !Expected(s, o)
  {
    steps := [];
    assert Exec([]) == Some(INIT);
    hide Exec;
    ExecSnoc(steps, Put(o));
    steps, checked := steps + [Put(o)], 1;
    var first := steps;
    assert Elems([o]) == {o} by {
      assert [o][0] in Elems([o]);
    }
    ExecSnoc(steps, Swap(0));
    steps := steps + [Swap(0)];
    ExecSnoc(steps, Persisted(0));
    steps := steps + [Persisted(0)];
    ExecSnoc(steps, Reach(0, o));
    steps := steps + [Reach(0, o)];
    assert steps[..checked] == first;
  }

  /** A stranded hook stays where it is: nothing but a new item of its owner brings it back. */
  lemma StrandedStays(s: State, step: Step, o: Owner)
    requires Enabled(s, step) && o in s.hooks && !Expected(s, o) && step != Put(o)
    ensures
      var t := Apply(s, step);
      o in t.hooks && t.hooks[o] == s.hooks[o] && !Expected(t, o)
  {
    var t := Apply(s, step);
    assert !InFlush(s, o);
    forall f | f in t.flushes ensures o !in t.flushes[f].owners {
      if f in s.flushes {
        assert o !in s.flushes[f].owners;
      }
    }
  }

  // ---------------------------------------------------------------- when a hook runs

  /** A hook runs in two cases only: a flush reaches the owner it is registered with, or it was
      refused because its owner has nothing pending. */
  lemma WhenAHookRuns(s: State, step: Step, h: Hook)
    requires Enabled(s, step) && Times(Apply(s, step).ran, h) > Times(s.ran, h)
    ensures
      || (step.Reach? && step.o in s.hooks && h in s.hooks[step.o])
      || (step.RegisterIfPending? && step.h == h && step.o !in s.pending)
  {
    if step.Reach? {
      var more := if step.o in s.hooks then s.hooks[step.o] else [];
      TimesConcat(s.ran, more, h);
      TimesMember(more, h);
    } else if step.RegisterIfPending? && step.o !in s.pending {
      TimesLast(s.ran, step.h, h);
    }
  }

  lemma {:induction false} TimesMember(s: seq<Hook>, h: Hook)
    ensures Times(s, h) > 0 <==> h in s
  {
    if s != [] {
      TimesMember(s[..|s| - 1], h);
      assert s == s[..|s| - 1] + [s[|s| - 1]];
      TimesLast(s[..|s| - 1], s[|s| - 1], h);
    }
  }

  /** And then it does run: every hook registered with an owner runs when a flush reaches it. */
  lemma ReachedHooksRun(s: State, f: nat, o: Owner, h: Hook)
    requires Enabled(s, Reach(f, o)) && o in s.hooks && h in s.hooks[o]
    ensures var t := Apply(s, Reach(f, o)); Times(t.ran, h) > Times(s.ran, h) && o !in t.hooks
  {
    TimesConcat(s.ran, s.hooks[o], h);
    TimesMember(s.hooks[o], h);
  }

  /** A hook of an owner with something pending is registered, not run. */
  lemma PendingHookWaits(s: State, o: Owner, h: Hook)
    requires Enabled(s, RegisterIfPending(o, h)) && o in s.pending
    ensures
      var t := Apply(s, RegisterIfPending(o, h));
      t.ran == s.ran && o in t.hooks && h in t.hooks[o]
  {
  }
}
