/** Runs in full: arbitrary inputs, passes cut short anywhere, traffic in between.
    The verdict after every complete pass, exactly, and what is safe about it. */
module Lasting {
  import opened Ids
  import opened Marks
  import opened Machine
  import opened Identity
  import opened Elements
  import opened Kernel
  import opened Reconcile
  import opened Flush
  import opened Cleanup
  import opened Policies
  import opened Compile
  import opened Requests
  import opened Layout
  import opened SetLayout
  import opened Exact
  import opened Passes
  import opened States
  import opened Results
  import opened Correct
  import opened Entry
  import opened Runs
  import opened Blocks
  import opened Incremental
  import opened Histories
  import opened Travels
  import opened Gains
  import opened Soundness
  import opened Excepts
  import M = Meanings

  /** A run from empty tables whose inputs are as policy selection delivers them. */
  ghost predicate FitRun(states: seq<Ruleset>, steps: seq<Step>) {
    Runs.Run(states, steps) && EmptyFilter(states[0]) && forall i :: 0 <= i < |steps| ==> Fit(steps[i].inp)
  }

  lemma RunStep(states: seq<Ruleset>, steps: seq<Step>, n: nat)
    requires FitRun(states, steps) && n < |steps|
    ensures Fit(steps[n].inp) && Ticked(PassStage(states[n], steps[n].inp, steps[n].commits), states[n + 1])
  {
    hide InputOk, DistinctPolicies, Selected, PassStage, Ticked, EmptyFilter;
  }

  lemma {:induction false} RunSound(states: seq<Ruleset>, steps: seq<Step>, n: nat)
    requires FitRun(states, steps) && n <= |steps|
    ensures Sound(states[n])
  {
    hide InputOk, DistinctPolicies, Selected, PassStage, Ticked, EmptyFilter, Sound, WellFormed;
    if n == 0 {
      EmptySound(states[0]);
    } else {
      RunSound(states, steps, n - 1);
      RunStep(states, steps, n - 1);
      var st := steps[n - 1];
      StageSound(states[n - 1], st.inp, st.commits);
      TickedSound(PassStage(states[n - 1], st.inp, st.commits), states[n]);
    }
  }

  // ----------------------------------------------------------- complete passes

  /** All commits of the pass got through. */
  predicate Complete(st: Step) {
    st.commits >= LAST_STAGE
  }

  lemma {:induction false} AllCommits(rs: Ruleset, w: seq<Req>, k: nat)
    requires k >= LAST_STAGE
    ensures Stage(rs, w, k) == Pass(rs, w)
    decreases k
  {
    if k > LAST_STAGE {
      AllCommits(rs, w, k - 1);
    }
  }

  lemma CompleteStep(states: seq<Ruleset>, steps: seq<Step>, n: nat)
    requires FitRun(states, steps) && n < |steps| && Complete(steps[n])
    ensures Sound(states[n]) && Fit(steps[n].inp) && Ticked(PassOf(states[n], steps[n].inp), states[n + 1])
  {
    hide InputOk, DistinctPolicies, Selected, PassLog, Ticked, EmptyFilter, Sound, Stage;
    RunSound(states, steps, n);
    RunStep(states, steps, n);
    AllCommits(states[n], PassLog(states[n], steps[n].inp), steps[n].commits);
  }

  /** The exact verdict after every complete pass of every run, whatever went
      before: gained interfaces, changed flags, excepts in any order, passes cut
      short.  It is read off the entry chain rule by rule, each policy deciding by
      its peers chains in installed order and by the sets as they are. */
  lemma RunVerdict(states: seq<Ruleset>, steps: seq<Step>, n: nat, d: Dir, pkt: Packet, m: Mark)
    requires FitRun(states, steps) && n < |steps| && Complete(steps[n]) && Fit(steps[n].inp)
    ensures var st := PassOf(states[n], steps[n].inp);
            var t := Tab(st, FILTER);
            Admits(Tab(states[n + 1], FILTER), pkt, HookOf(d), m) <==>
            || !InSet(t, PodInterfaces, Name(IfOf(d, pkt)))
            || Travel(ShapeAt(st, FILTER, EntryChain(d)), HeldScene(t, steps[n].inp, d, pkt),
                      Go(Both(m))) != Stop(false)
  {
    hide PassStage, EmptyFilter, InputOk, DistinctPolicies, Selected, PassOf, Ticked, Sound, Admits, InSet, Travel,
         HeldScene, Both;
    CompleteStep(states, steps, n);
    InstalledVerdict(states[n], steps[n].inp, d, pkt, m);
    TickedAdmits(PassOf(states[n], steps[n].inp), states[n + 1], FILTER, pkt, HookOf(d), m);
  }

  /** The same in terms of the input, excepts included, for packets that the sets,
      once updated, and the lists represent right, if the wanted rules of each
      peers chain with excepts are, in order, the first of the requested ones. */
  lemma RunVerdictMeant(states: seq<Ruleset>, steps: seq<Step>, n: nat, d: Dir, pkt: Packet, m: Mark)
    requires FitRun(states, steps) && n < |steps| && Complete(steps[n]) && Fit(steps[n].inp)
    requires SetsServe(states[n], steps[n].inp, d, pkt) && InputExact(steps[n].inp, d, pkt) && ValidPacket(pkt)
    requires AllReady(states[n], steps[n].inp, d)
    ensures var st := PassOf(states[n], steps[n].inp);
            Admits(Tab(states[n + 1], FILTER), pkt, HookOf(d), m) <==>
            || !OnPod(steps[n].inp, d, pkt)
            || Travel(ShapeAt(st, FILTER, EntryChain(d)), MeantScene(steps[n].inp, d, pkt), Go(Both(m))) != Stop(false)
  {
    hide PassStage, EmptyFilter, InputOk, DistinctPolicies, Selected, PassOf, Ticked, Sound, Admits, SetsServe,
         InputExact, ValidPacket, AllReady, AllSettled, OnPod, Travel, MeantScene, Both, WellFormed, SupportedFilter,
         SoundDir;
    var rs, inp := states[n], steps[n].inp;
    CompleteStep(states, steps, n);
    SoundAt(rs, d);
    PassSettles(rs, inp, d);
    MeantVerdict(rs, inp, d, pkt, m);
    TickedAdmits(PassOf(rs, inp), states[n + 1], FILTER, pkt, HookOf(d), m);
  }

  /** Safety over whole runs: after every complete pass no such packet passes
      unless some policy allows it; without excepts, unless the policies let it. */
  lemma RunSafe(states: seq<Ruleset>, steps: seq<Step>, n: nat, d: Dir, pkt: Packet, m: Mark)
    requires FitRun(states, steps) && n < |steps| && Complete(steps[n]) && Fit(steps[n].inp)
    requires SetsServe(states[n], steps[n].inp, d, pkt) && InputExact(steps[n].inp, d, pkt) && ValidPacket(pkt)
    requires AllReady(states[n], steps[n].inp, d) && PoliciesOk(PoliciesFor(steps[n].inp, d), d) && !Both(m)
    requires Admits(Tab(states[n + 1], FILTER), pkt, HookOf(d), m)
    ensures Exempt(steps[n].inp, d, pkt) || SomeDecides(steps[n].inp, PoliciesFor(steps[n].inp, d), d, pkt, Allow)
    ensures InputNoExcept(steps[n].inp, d) ==> MayPass(steps[n].inp, d, pkt)
  {
    hide PassStage, EmptyFilter, InputOk, DistinctPolicies, Selected, PassOf, Ticked, Sound, Admits, SetsServe,
         InputExact, ValidPacket, AllReady, AllSettled, InputNoExcept, MayPass, Both, WellFormed, SupportedFilter,
         SoundDir, Exempt, SomeDecides, PoliciesOk;
    var rs, inp := states[n], steps[n].inp;
    CompleteStep(states, steps, n);
    SoundAt(rs, d);
    PassSettles(rs, inp, d);
    TickedAdmits(PassOf(rs, inp), states[n + 1], FILTER, pkt, HookOf(d), m);
    NeverTooMuch(rs, inp, d, pkt, m);
  }

  /** The same from the inputs alone: no set that can be installed changes the flag
      of a key, and there are no excepts.  Gains may happen anywhere. */
  lemma RunSafeFromInputs(states: seq<Ruleset>, steps: seq<Step>, n: nat, d: Dir, pkt: Packet, m: Mark)
    requires FitRun(states, steps) && (forall i :: 0 <= i < |steps| ==> InputOk(steps[i].inp)) && FlagsLast(steps)
    requires n < |steps| && Complete(steps[n]) && InputExact(steps[n].inp, d, pkt) && ValidPacket(pkt)
    requires InputNoExcept(steps[n].inp, d) && !Both(m)
    ensures Admits(Tab(states[n + 1], FILTER), pkt, HookOf(d), m) ==> MayPass(steps[n].inp, d, pkt)
  {
    hide PassStage, EmptyFilter, InputOk, DistinctPolicies, Selected, Ticked, Admits, SetsServe, SetsReady, InputExact,
         ValidPacket, AllReady, InputNoExcept, MayPass, Both, WellFormed, FlagsLast, Exempt, SomeDecides, PoliciesOk;
    var rs, inp := states[n], steps[n].inp;
    RunStep(states, steps, n);
    RunLasts(states, steps, n);
    ReadyServes(rs, inp, d, pkt);
    NoExceptReady(rs, inp, d);
    PoliciesOkIn(inp, d, PoliciesFor(inp, d));
    if Admits(Tab(states[n + 1], FILTER), pkt, HookOf(d), m) {
      RunSafe(states, steps, n, d, pkt, m);
    }
  }

  lemma NoExceptReady(rs: Ruleset, inp: Input, d: Dir)
    requires InputOk(inp) && InputNoExcept(inp, d)
    ensures AllReady(rs, inp, d)
  {
    NoExceptSettled(rs, inp, d);
    hide M.PeersRules, RuleNoExcept, Standing, InputOk, InputNoExcept, RulesOk, ShapeAt;
    forall p, k | p in PoliciesFor(inp, d) && 0 <= k < |RulesFor(p, d)| ensures RuleReady(rs, inp, p, d, k) {
      assert RuleSettled(rs, inp, p, d, k);
      SettledReady(rs, inp, p, d, k);
    }
  }

  /** Incremental equals fresh over whole runs: if moreover the pass gains nothing
      and finds its wanted jumps in front of their checks, every such packet gets
      the verdict of the policies, which is that of a compile on empty tables. */
  lemma RunRight(states: seq<Ruleset>, steps: seq<Step>, n: nat, blank: Ruleset, d: Dir, pkt: Packet, m: Mark)
    requires FitRun(states, steps) && n < |steps| && Complete(steps[n]) && Fit(steps[n].inp)
    requires SetsServe(states[n], steps[n].inp, d, pkt) && InputExact(steps[n].inp, d, pkt) && ValidPacket(pkt)
    requires InputNoExcept(steps[n].inp, d) && !Both(m)
    requires NoGain(steps[n].inp, d, ShapeAt(states[n], FILTER, EntryChain(d)))
    requires KeptGuarded(steps[n].inp, d, ShapeAt(states[n], FILTER, EntryChain(d)))
    requires WellFormed(blank) && EmptyFilter(blank)
    ensures Admits(Tab(states[n + 1], FILTER), pkt, HookOf(d), m) <==> MayPass(steps[n].inp, d, pkt)
    ensures Admits(Tab(states[n + 1], FILTER), pkt, HookOf(d), m) <==>
            Admits(Tab(PassOf(blank, steps[n].inp), FILTER), pkt, HookOf(d), m)
  {
    hide PassStage, EmptyFilter, InputOk, DistinctPolicies, Selected, PassOf, Ticked, Sound, Admits, SetsServe,
         InputExact, ValidPacket, InputNoExcept, MayPass, Both, NoGain, KeptGuarded, Guarded, WellFormed, SoundDir,
         SupportedFilter;
    var rs, inp := states[n], steps[n].inp;
    CompleteStep(states, steps, n);
    SoundAt(rs, d);
    assert EntryOk(d, ShapeAt(rs, FILTER, EntryChain(d))) by { SoundEntry(rs, d); }
    GuardedExactly(rs, inp, d);
    GuardedVerdict(rs, inp, d, pkt, m);
    CompilerCorrect(blank, inp, d, pkt, m);
    TickedAdmits(PassOf(rs, inp), states[n + 1], FILTER, pkt, HookOf(d), m);
  }

  lemma SoundEntry(rs: Ruleset, d: Dir)
    requires SoundDir(rs, d)
    ensures EntryOk(d, ShapeAt(rs, FILTER, EntryChain(d)))
  {
  }

  // -------------------------------------------------------------- sets of runs

  /** Sets of step i can still be installed before step j: it was flushed, and no
      step in between got as far as the cleanup of the filter table. */
  predicate Lingers(steps: seq<Step>, i: nat, j: nat) {
    i < j <= |steps| && steps[i].commits > 0 && forall k :: i < k < j ==> steps[k].commits < 2
  }

  /** No step changes the interval flag of a key in a set that can be installed. */
  ghost predicate FlagsLast(steps: seq<Step>)
    requires forall i :: 0 <= i < |steps| ==> InputOk(steps[i].inp)
  {
    forall i: nat, j: nat :: j < |steps| && Lingers(steps, i, j) ==> FlagsKept(steps[i].inp, steps[j].inp)
  }

  /** A set holds its meaning for the input of some step that lingers. */
  ghost predicate SetLasts(x: SetObj, steps: seq<Step>, n: nat, s: SetId)
    requires forall i :: 0 <= i < |steps| ==> InputOk(steps[i].inp)
  {
    exists i: nat :: Lingers(steps, i, n) && SetSettled(x, steps[i].inp, s)
  }

  lemma {:induction false} StageSetAt(rs: Ruleset, w: seq<Req>, k: nat, s: SetId)
    requires k >= 1
    ensures var x := SetAt(Stage(rs, w, 1), FILTER, s);
            SetAt(Stage(rs, w, k), FILTER, s) ==
            if k == 1 || (FILTER, s) in SetsOf(w) || (x.Some? && x.value.anonymous) then x else None
    decreases k
  {
    if k > 1 {
      StageSetAt(rs, w, k - 1, s);
      StageStep(rs, w, k - 1, FILTER);
    }
  }

  /** A set that is asked for holds its meaning from the first commit on. */
  lemma PassSetAt(rs: Ruleset, inp: Input, k: nat, s: SetId)
    requires WellFormed(rs) && InputOk(inp) && DistinctPolicies(inp) && k >= 1 && SetReady(rs, inp, s)
    requires Asked(inp, s) && (s in Tab(rs, FILTER).sets ==> !Tab(rs, FILTER).sets[s].anonymous)
    ensures s in Tab(PassStage(rs, inp, k), FILTER).sets
    ensures SetSettled(Tab(PassStage(rs, inp, k), FILTER).sets[s], inp, s)
  {
    hide PassReqs, Force, Meaning, InputOk, DistinctPolicies, Stage, Updated, Asked, Ops, HasSet, WellFormed;
    var fi, fe, w := Force(rs, inp, Ingress), Force(rs, inp, Egress), PassLog(rs, inp);
    var want := Meaning(inp, FILTER, s);
    AskedLog(rs, inp, s);
    PassMeaning(inp, fi, fe, FILTER, s);
    FlushSet(rs, w, FILTER, s, want);
    FirstStage(rs, w);
    StageSetAt(rs, w, k, s);
    AskedTracked(w, s);
    NamedMeaning(inp, s);
    if s in Tab(rs, FILTER).sets {
      UpdateExact(Tab(rs, FILTER).sets[s].elems, want.elems);
    }
  }

  /** One that is not stays as it is until the cleanup takes it. */
  lemma UnaskedAt(rs: Ruleset, inp: Input, k: nat, s: SetId)
    requires WellFormed(rs) && InputOk(inp) && DistinctPolicies(inp) && k >= 1 && !Asked(inp, s)
    requires s in Tab(rs, FILTER).sets ==> !Tab(rs, FILTER).sets[s].anonymous
    ensures SetAt(PassStage(rs, inp, k), FILTER, s) == if k == 1 then SetAt(rs, FILTER, s) else None
  {
    hide PassReqs, Force, Meaning, InputOk, DistinctPolicies, Stage, Asked, Ops, HasSet, WellFormed, SetResult;
    var fi, fe, w := Force(rs, inp, Ingress), Force(rs, inp, Egress), PassLog(rs, inp);
    AskedLog(rs, inp, s);
    PassMeaning(inp, fi, fe, FILTER, s);
    FlushSet(rs, w, FILTER, s, Meaning(inp, FILTER, s));
    FirstStage(rs, w);
    StageSetAt(rs, w, k, s);
    AskedTracked(w, s);
  }

  lemma FirstStage(rs: Ruleset, w: seq<Req>)
    ensures Stage(rs, w, 1) == ApplyAll(rs, Ops(w, rs))
  {
  }

  lemma AskedTracked(w: seq<Req>, s: SetId)
    ensures (FILTER, s) in SetsOf(w) <==> HasSet(w, FILTER, s)
  {
  }

  /** If flags last, so do the sets, and every step finds sets it can update. */
  lemma {:induction false} RunLasts(states: seq<Ruleset>, steps: seq<Step>, n: nat)
    requires FitRun(states, steps) && (forall i :: 0 <= i < |steps| ==> InputOk(steps[i].inp)) && FlagsLast(steps)
    requires n <= |steps|
    ensures forall s :: s in Tab(states[n], FILTER).sets ==> SetLasts(Tab(states[n], FILTER).sets[s], steps, n, s)
    ensures n < |steps| ==> SetsReady(states[n], steps[n].inp)
  {
    hide InputOk, PassStage, SetReady, SetSettled, WellFormed, EmptyFilter, DistinctPolicies, Selected, Ticked, PassLog,
         FlagsKept;
    if n == 0 {
      assert Tab(states[0], FILTER).sets == map[] by { NoSets(states[0]); }
    } else {
      RunLasts(states, steps, n - 1);
      RunStep(states, steps, n - 1);
      RunOk(states, steps, n - 1);
      var rs, st := states[n - 1], steps[n - 1];
      TickedTables(PassStage(rs, st.inp, st.commits), states[n]);
      forall s | s in Tab(states[n], FILTER).sets ensures SetLasts(Tab(states[n], FILTER).sets[s], steps, n, s) {
        LastsStep(rs, steps, n - 1, s);
      }
    }
    if n < |steps| {
      LastsReady(states[n], steps, n);
    }
  }

  lemma NoSets(rs: Ruleset)
    requires EmptyFilter(rs)
    ensures Tab(rs, FILTER).sets == map[]
  {
  }

  lemma LastsReady(rs: Ruleset, steps: seq<Step>, n: nat)
    requires (forall i :: 0 <= i < |steps| ==> InputOk(steps[i].inp)) && FlagsLast(steps) && n < |steps|
    requires forall s :: s in Tab(rs, FILTER).sets ==> SetLasts(Tab(rs, FILTER).sets[s], steps, n, s)
    ensures SetsReady(rs, steps[n].inp) && forall s :: Asked(steps[n].inp, s) ==> SetReady(rs, steps[n].inp, s)
  {
    hide InputOk, PassLog, Meaning, Asked;
    var b := steps[n].inp;
    forall s | Asked(b, s) ensures SetReady(rs, b, s) {
      if s in Tab(rs, FILTER).sets {
        assert SetLasts(Tab(rs, FILTER).sets[s], steps, n, s);
        var i: nat :| Lingers(steps, i, n) && SetSettled(Tab(rs, FILTER).sets[s], steps[i].inp, s);
        assert FlagsKept(steps[i].inp, b);
        assert Agree(Meaning(steps[i].inp, FILTER, s), Meaning(b, FILTER, s));
      }
    }
    forall s | HasSet(PassLog(rs, b), FILTER, s) ensures SetReady(rs, b, s) {
      AskedLog(rs, b, s);
    }
  }

  lemma LastsStep(rs: Ruleset, steps: seq<Step>, n: nat, s: SetId)
    requires (forall i :: 0 <= i < |steps| ==> InputOk(steps[i].inp)) && FlagsLast(steps) && n < |steps|
    requires WellFormed(rs) && DistinctPolicies(steps[n].inp)
    requires forall s :: s in Tab(rs, FILTER).sets ==> SetLasts(Tab(rs, FILTER).sets[s], steps, n, s)
    requires s in Tab(PassStage(rs, steps[n].inp, steps[n].commits), FILTER).sets
    ensures SetLasts(Tab(PassStage(rs, steps[n].inp, steps[n].commits), FILTER).sets[s], steps, n + 1, s)
  {
    var inp, k := steps[n].inp, steps[n].commits;
    if k == 0 {
      OldLasts(rs, steps, n, s);
    } else {
      LastsNamed(rs, steps, n, s);
      if Asked(inp, s) {
        AskedLasts(rs, steps, n, s);
      } else {
        hide InputOk, PassStage, WellFormed, DistinctPolicies, FlagsLast, Asked, SetLasts;
        UnaskedAt(rs, inp, k, s);
        OldLasts(rs, steps, n, s);
      }
    }
  }

  lemma AskedLasts(rs: Ruleset, steps: seq<Step>, n: nat, s: SetId)
    requires (forall i :: 0 <= i < |steps| ==> InputOk(steps[i].inp)) && FlagsLast(steps) && n < |steps|
    requires WellFormed(rs) && DistinctPolicies(steps[n].inp) && Asked(steps[n].inp, s) && steps[n].commits > 0
    requires forall s :: s in Tab(rs, FILTER).sets ==> SetLasts(Tab(rs, FILTER).sets[s], steps, n, s)
    requires s in Tab(PassStage(rs, steps[n].inp, steps[n].commits), FILTER).sets
    ensures SetLasts(Tab(PassStage(rs, steps[n].inp, steps[n].commits), FILTER).sets[s], steps, n + 1, s)
  {
    hide InputOk, PassStage, SetReady, WellFormed, DistinctPolicies, FlagsLast, Asked, Meaning;
    var inp, k := steps[n].inp, steps[n].commits;
    LastsReady(rs, steps, n);
    LastsNamed(rs, steps, n, s);
    PassSetAt(rs, inp, k, s);
    assert Lingers(steps, n, n + 1) && SetSettled(Tab(PassStage(rs, inp, k), FILTER).sets[s], inp, s);
  }

  lemma LastsNamed(rs: Ruleset, steps: seq<Step>, n: nat, s: SetId)
    requires forall i :: 0 <= i < |steps| ==> InputOk(steps[i].inp)
    requires forall s :: s in Tab(rs, FILTER).sets ==> SetLasts(Tab(rs, FILTER).sets[s], steps, n, s)
    ensures s in Tab(rs, FILTER).sets ==> !Tab(rs, FILTER).sets[s].anonymous
  {
    hide InputOk, Meaning, Asked;
    if s in Tab(rs, FILTER).sets {
      assert SetLasts(Tab(rs, FILTER).sets[s], steps, n, s);
    }
  }

  lemma OldLasts(rs: Ruleset, steps: seq<Step>, n: nat, s: SetId)
    requires (forall i :: 0 <= i < |steps| ==> InputOk(steps[i].inp)) && n < |steps| && steps[n].commits < 2
    requires s in Tab(rs, FILTER).sets && SetLasts(Tab(rs, FILTER).sets[s], steps, n, s)
    ensures SetLasts(Tab(rs, FILTER).sets[s], steps, n + 1, s)
  {
    hide InputOk, SetSettled;
    var i: nat :| Lingers(steps, i, n) && SetSettled(Tab(rs, FILTER).sets[s], steps[i].inp, s);
    assert Lingers(steps, i, n + 1);
  }
}
