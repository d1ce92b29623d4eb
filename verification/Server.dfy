/** One reconcile pass from policies to kernel, the removal at the end of a run,
    and what runs of both leave outside the daemon's own tables. */
module Server {
  import opened Ids
  import opened Machine
  import opened Identity
  import opened Kernel
  import opened Reconcile
  import opened Cleanup
  import opened Policies
  import opened Compile
  import opened Requests
  import opened Exact
  import opened Passes
  import opened NftState
  import opened Legacy
  import opened Selection
  import opened SetLayout
  import opened Entry
  import opened Marks
  import opened States
  import opened Correct
  import opened Runs
  import opened Incremental
  import opened Results
  import opened Histories
  import opened Excepts
  import opened Travels
  import opened Soundness
  import S = Spelled

  /** Outside the managed tables only daemon-owned objects of the legacy tables
      may have gone. */
  ghost predicate Outside(a: Ruleset, b: Ruleset) {
    forall t :: !Managed(t) ==>
      && (t in a <==> t in b)
      && (t in a ==> if IsLegacy(t) then Spares(a[t], b[t]) else b[t] == a[t])
  }

  lemma OutsideItself(a: Ruleset)
    ensures Outside(a, a)
  {
    hide Spares;
    forall t | t in a ensures Spares(a[t], a[t]) {
      SparesItself(a[t]);
    }
  }

  lemma OutsideTrans(a: Ruleset, b: Ruleset, c: Ruleset)
    requires Outside(a, b) && Outside(b, c)
    ensures Outside(a, c)
  {
    hide Spares;
    forall t | !Managed(t) && t in a && IsLegacy(t) ensures Spares(a[t], c[t]) {
      SparesTrans(a[t], b[t], c[t]);
    }
  }

  lemma LegacyOutside(a: Ruleset, b: Ruleset)
    requires OnlyLegacy(a, b)
    ensures Outside(a, b)
    ensures forall t :: Managed(t) ==> (t in a <==> t in b) && (t in a ==> a[t] == b[t])
  {
    hide Spares;
  }

  lemma StageOutside(rs: Ruleset, inp: Input, k: nat)
    requires InputOk(inp)
    ensures Outside(rs, PassStage(rs, inp, k))
  {
    hide PassReqs, Force, GoodReq, Spares, InputOk, Stage;
    PassGood(inp, Force(rs, inp, Ingress), Force(rs, inp, Egress));
    hide PassLog, GoodPart;
    forall t | !Managed(t)
      ensures (t in rs <==> t in PassStage(rs, inp, k))
      ensures (t in rs ==> PassStage(rs, inp, k)[t] == rs[t] && Spares(rs[t], rs[t]))
    {
      OthersUntouched(rs, PassLog(rs, inp), k, t);
      if t in rs {
        SparesItself(rs[t]);
      }
    }
  }

  // ------------------------------------------------------------------ events

  /** What the daemon does to a ruleset: a pass that got through the legacy cleanup
      (leading to mid) and committed k stages for an input, or a removal that did
      or did not delete the managed tables.  A failed legacy cleanup leads to a
      mid of its own. */
  datatype Event = Passed(mid: Ruleset, inp: Input, k: nat) | Removed(mid: Ruleset, done: bool)

  /** The event can happen to ruleset a. */
  ghost predicate Happens(a: Ruleset, e: Event) {
    OnlyLegacy(a, e.mid) && (e.Passed? && e.k > 0 ==> InputOk(e.inp))
  }

  /** The input of a pass is as policy selection delivers it. */
  ghost predicate Regular(e: Event) {
    WellFormed(e.mid) && (e.Passed? && e.k > 0 ==> Fit(e.inp))
  }

  /** The ruleset an event leaves. */
  ghost function After(a: Ruleset, e: Event): Ruleset
    requires Happens(a, e)
  {
    match e
    case Passed(mid, inp, k) => if k == 0 then mid else PassStage(mid, inp, k)
    case Removed(mid, done) => if done then mid - {FILTER, NAT} else mid
  }

  /** No event touches anything else outside the managed tables. */
  lemma EventOutside(a: Ruleset, e: Event)
    requires Happens(a, e)
    ensures Outside(a, After(a, e))
  {
    hide Outside, InputOk, PassStage, OnlyLegacy;
    LegacyOutside(a, e.mid);
    if e.Passed? && e.k > 0 {
      StageOutside(e.mid, e.inp, e.k);
      OutsideTrans(a, e.mid, After(a, e));
    } else if e.Removed? && e.done {
      DropOutside(a, e.mid, {FILTER, NAT});
    }
  }

  /** The pass for a given input, once the legacy tables are clean: it commits
      the stages one after the other, and none if the input is not accepted. */
  method RunPass(conn: Conn, inp: Input) returns (ok: bool, ghost k: nat)
    requires conn.pending == [] && WellFormed(conn.committed)
    modifies conn
    ensures conn.failures >= old(conn.failures) && (ok <==> InputOk(inp) && conn.failures == old(conn.failures))
    ensures k == 0 ==> !ok && conn.committed == old(conn.committed)
    ensures k > 0 ==>
              && InputOk(inp) && k <= LAST_STAGE && (ok <==> k == LAST_STAGE)
              && conn.committed == PassStage(old(conn.committed), inp, k)
  {
    hide InputOk, PassLog, Stage, WellFormed, KeysOf, SetsOf, ChainsOf;
    ghost var rs := conn.committed;
    k := 0;
    var state := new State(conn);
    ok := state.Compile(inp);
    if !ok {
      return;
    }
    FlushStage(rs, inp);
    StageOk(rs, PassLog(rs, inp), 1);
    ok := conn.Flush();
    if !ok {
      return;
    }
    ok, k := state.Cleanup(rs);
  }

  /** ApplyPolicyRulesForPodAndFamily.  Unless the pod has no interfaces or the
      kernel rejects a batch, the pass cleans the legacy tables (leading to mid),
      selects the policies, and succeeds exactly when it accepts the input; it then
      commits all stages.  One that fails has committed a prefix of that, and
      nothing at all to the managed tables if the input is not accepted. */
  method ApplyPolicyRules(conn: Conn, policies: map<PolicyKey, Policy>, view: View, cfg: Config, pod: Pod,
                          ifs: seq<Iface>)
    returns (ok: bool, ghost mid: Ruleset, ghost inp: Input, ghost k: nat)
    requires conn.pending == [] && WellFormed(conn.committed) && Keyed(policies)
    modifies conn
    ensures ifs == [] ==> !ok && conn.committed == old(conn.committed)
    ensures Happens(old(conn.committed), Passed(mid, inp, k))
    ensures conn.committed == After(old(conn.committed), Passed(mid, inp, k)) && Regular(Passed(mid, inp, k))
    ensures Outside(old(conn.committed), conn.committed) && k <= LAST_STAGE && (ok <==> k == LAST_STAGE)
    ensures conn.failures >= old(conn.failures) && (ok ==> conn.failures == old(conn.failures))
    ensures k > 0 || (ifs != [] && conn.failures == old(conn.failures)) ==>
              && AllCleaned(old(conn.committed), mid) && inp == Input(ifs, cfg, inp.ingress, inp.egress, view)
              && IsSelection(inp.ingress, policies, view, pod, ifs, Ingress) &&
                 IsSelection(inp.egress, policies, view, pod, ifs, Egress)
    ensures ifs != [] && conn.failures == old(conn.failures) ==> (ok <==> InputOk(inp))
    ensures ok ==> Succeeds(Call(old(conn.committed), mid, conn.committed, inp))
  {
    hide OnlyLegacy, AllCleaned, Outside, IsSelection, Keyed, InputOk, PassStage, WellFormed, DistinctPolicies,
         Selected;
    mid, inp, k, ok := conn.committed, Input(ifs, cfg, [], [], view), 0, false;
    NoLegacyChange(mid);
    EventOutside(conn.committed, Passed(mid, inp, k));
    if |ifs| == 0 {
      return;
    }
    var clean := CleanupLegacyTables(conn);
    mid := conn.committed;
    EventOutside(old(conn.committed), Passed(mid, inp, k));
    if !clean {
      return;
    }
    var ingress, egress := SelectPolicies(policies, view, pod, ifs);
    inp := Input(ifs, cfg, ingress, egress, view);
    ok, k := RunPass(conn, Input(ifs, cfg, ingress, egress, view));
    SelectionFits(inp, policies, pod);
    EventOutside(old(conn.committed), Passed(mid, inp, k));
  }

  lemma NoLegacyChange(a: Ruleset)
    ensures OnlyLegacy(a, a)
  {
    hide Spares;
    forall t | t in a ensures Spares(a[t], a[t]) {
      SparesItself(a[t]);
    }
  }

  lemma FlushStage(rs: Ruleset, inp: Input)
    requires InputOk(inp)
    ensures Stage(rs, PassLog(rs, inp), 1) == ApplyAll(rs, Ops(PassLog(rs, inp), rs))
  {
  }

  // ----------------------------------------------------------------- removal

  /** flushRulesForPod.  It reports an error unless both parts succeed; a failed
      legacy cleanup does not keep the managed tables from being deleted, in one
      batch, and without managed tables there is nothing to delete. */
  method FlushRulesForPod(conn: Conn) returns (clean: bool, removed: bool, ghost mid: Ruleset)
    requires conn.pending == [] && WellFormed(conn.committed)
    modifies conn
    ensures Happens(old(conn.committed), Removed(mid, removed))
    ensures conn.committed == After(old(conn.committed), Removed(mid, removed)) && Regular(Removed(mid, removed))
    ensures Outside(old(conn.committed), conn.committed)
    ensures forall t :: Managed(t) && t in conn.committed ==> !removed && t in old(conn.committed)
    ensures !removed ==> forall t :: Managed(t) && t in old(conn.committed) ==> t in conn.committed
    ensures clean ==> forall t :: t in old(conn.committed) && t in conn.committed && IsLegacy(t) ==>
              CleanedSomehow(old(conn.committed)[t], conn.committed[t])
    ensures conn.failures >= old(conn.failures) && (clean && removed <==> conn.failures == old(conn.failures))
  {
    hide WellFormed, ApplyAll, CleanedSomehow, Spares, Outside, Fit;
    clean := CleanupLegacyTables(conn);
    mid := conn.committed;
    var deleted := QueueTables(conn);
    removed := true;
    if deleted > 0 {
      removed := conn.Flush();
    }
    EventOutside(old(conn.committed), Removed(mid, removed));
  }

  /** The loop over the managed tables: deletes those that are there. */
  method QueueTables(conn: Conn) returns (deleted: nat)
    requires conn.pending == []
    modifies conn
    ensures conn.committed == old(conn.committed) && conn.failures == old(conn.failures)
    ensures ApplyAll(conn.committed, conn.pending) == conn.committed - {FILTER, NAT}
    ensures deleted == 0 <==> forall t :: Managed(t) ==> t !in conn.committed
  {
    hide ApplyAll;
    ghost var mid := conn.committed;
    var tables := [FILTER, NAT];
    deleted := 0;
    ghost var gone: set<TableId> := {};
    ApplyNone(mid);
    assert mid - {} == mid;
    for i := 0 to |tables|
      invariant conn.committed == mid && conn.failures == old(conn.failures)
      invariant gone == set t | t in tables[..i] && t in mid
      invariant (deleted == 0 <==> gone == {}) && ApplyAll(mid, conn.pending) == mid - gone
    {
      var t := tables[i];
      assert forall x :: x in tables[..i + 1] <==> x in tables[..i] || x == t;
      assert (set x | x in tables[..i + 1] && x in mid) == if t in mid then gone + {t} else gone;
      if t in conn.committed {
        QueueDelTable(mid, conn.pending, gone, t);
        conn.Queue(DelTable(t));
        deleted := deleted + 1;
        gone := gone + {t};
      }
    }
    assert tables[..2] == tables && forall t :: t in tables <==> Managed(t);
    assert mid - gone == mid - {FILTER, NAT};
    if t :| Managed(t) && t in mid {
      assert t in gone;
    }
  }

  lemma QueueDelTable(rs: Ruleset, pending: seq<Op>, gone: set<TableId>, t: TableId)
    requires ApplyAll(rs, pending) == rs - gone
    ensures ApplyAll(rs, pending + [DelTable(t)]) == rs - (gone + {t})
  {
    ApplySnoc(rs, pending, DelTable(t));
    assert (rs - gone) - {t} == rs - (gone + {t});
  }

  lemma DropOutside(a: Ruleset, mid: Ruleset, gone: set<TableId>)
    requires Outside(a, mid) && forall t :: t in gone ==> Managed(t)
    ensures Outside(a, mid - gone)
  {
    hide Spares;
  }

  // -------------------------------------------------------------------- runs

  /** A run: each ruleset comes from the one before by an event. */
  ghost predicate EventRun(states: seq<Ruleset>, events: seq<Event>) {
    && |states| == |events| + 1
    && forall i :: 0 <= i < |events| ==> Happens(states[i], events[i]) && states[i + 1] == After(states[i], events[i])
  }

  /** Outside the managed tables, any run of passes and removals, failed or not,
      amounts to one legacy cleanup. */
  lemma {:induction false} OutsideRun(states: seq<Ruleset>, events: seq<Event>, n: nat)
    requires EventRun(states, events) && n <= |events|
    ensures Outside(states[0], states[n])
  {
    hide Outside, Happens, After;
    if n == 0 {
      OutsideItself(states[0]);
    } else {
      OutsideRun(states, events, n - 1);
      EventOutside(states[n - 1], events[n - 1]);
      OutsideTrans(states[0], states[n - 1], states[n]);
    }
  }

  /** Apply then remove: after any passes and removals, failed or not, and then a
      removal that got through, no managed table is left, no other table has come
      or gone, tables that are not legacy are untouched, and in the legacy tables
      every foreign rule stays in order and every foreign chain and set stays. */
  lemma ApplyThenRemove(states: seq<Ruleset>, events: seq<Event>, t: TableId)
    requires EventRun(states, events) && events != [] && events[|events| - 1].Removed? && events[|events| - 1].done
    ensures var a, b := states[0], states[|events|];
            && (t in b <==> t in a && !Managed(t))
            && (t in b && !IsLegacy(t) ==> b[t] == a[t])
            && (t in b && IsLegacy(t) ==> KeepsForeign(a[t], b[t]))
  {
    hide PassStage, Spares;
    var a, b := states[0], states[|events|];
    OutsideRun(states, events, |events|);
    assert b == After(states[|events| - 1], events[|events| - 1]);
    if t in b && IsLegacy(t) {
      SparesForeign(a[t], b[t]);
    }
  }

  /** The same without a word on ownership.  After any passes and removals and then
      a removal that got through: the two managed inet tables are gone; all tables
      but the inet tables "filter" and "nat" are as they were; and of those every
      rule that is not the daemon's stays in order, every chain stays but entry and
      common chains of which nothing is left, and every set but the daemon's. */
  lemma RemovedSpelled(states: seq<Ruleset>, events: seq<Event>, t: TableId)
    requires EventRun(states, events) && events != [] && events[|events| - 1].Removed? && events[|events| - 1].done
    ensures var a, b := states[0], states[|events|];
            && (t in b <==> t in a && !(t.family == Inet && (t.name == ManagedFilter || t.name == ManagedNat)))
            && (t in b && !(t.family == Inet && (t.name == LegacyFilter || t.name == LegacyNat)) ==> b[t] == a[t])
            && (t in b ==> LeftAlone(a[t], b[t]))
  {
    hide Happens, After, KeepsForeign, LeftAlone;
    var a, b := states[0], states[|events|];
    ApplyThenRemove(states, events, t);
    if t in b {
      if IsLegacy(t) {
        ForeignLeftAlone(a[t], b[t]);
      } else {
        ItselfLeftAlone(a[t]);
      }
    }
  }

  ghost predicate LeftAlone(a: Table, b: Table) {
    && (forall c :: c in b.chains ==> c in a.chains && Staying(c, b.chains[c]) == Staying(c, a.chains[c]))
    && (forall c :: c in b.chains && !c.BaseChain? && !c.EntryChain? && !c.CommonChain? ==> b.chains[c] == a.chains[c])
    && (forall c :: c in a.chains && c !in b.chains ==>
          (c.EntryChain? || c.CommonChain?) && Staying(c, a.chains[c]) == [])
    && (forall s :: s in a.sets && !OldSet(s, a.sets[s]) ==> s in b.sets && b.sets[s] == a.sets[s])
  }

  lemma ItselfLeftAlone(a: Table)
    ensures LeftAlone(a, a)
  {
  }

  lemma ForeignLeftAlone(a: Table, b: Table)
    requires KeepsForeign(a, b)
    ensures LeftAlone(a, b)
  {
    hide Foreign, Staying;
    forall c | c in b.chains
      ensures c in a.chains && Staying(c, b.chains[c]) == Staying(c, a.chains[c])
      ensures !c.BaseChain? && !c.EntryChain? && !c.CommonChain? ==> b.chains[c] == a.chains[c]
    {
      StayingIsForeign(c, a.chains[c]);
      StayingIsForeign(c, b.chains[c]);
      if !c.BaseChain? && !c.EntryChain? && !c.CommonChain? {
        AllStay(c, a.chains[c]);
        AllStay(c, b.chains[c]);
      }
    }
    forall c | c in a.chains && c !in b.chains ensures Staying(c, a.chains[c]) == [] {
      StayingIsForeign(c, a.chains[c]);
    }
  }

  /** Every foreign rule stays, in order, and so do foreign chains and sets. */
  ghost predicate KeepsForeign(a: Table, b: Table) {
    && (forall c :: c in b.chains ==> c in a.chains && Foreign(c, b.chains[c]) == Foreign(c, a.chains[c]))
    && (forall c :: c in a.chains && c !in b.chains ==> DaemonChain(c) && Foreign(c, a.chains[c]) == [])
    && (forall s :: s in a.sets && !DaemonSet(s, a.sets[s]) ==> s in b.sets && b.sets[s] == a.sets[s])
  }

  lemma SparesForeign(a: Table, b: Table)
    requires Spares(a, b)
    ensures KeepsForeign(a, b)
  {
    hide Foreign, DaemonSet;
    forall c | c in b.chains ensures Foreign(c, b.chains[c]) == Foreign(c, a.chains[c]) {
      ForeignTwice(c, a.chains[c]);
    }
  }

  // --------------------------------------------------- verdicts over all events

  /** A life: passes and removals from an empty filter table, each of them successful
      or failed anywhere, with traffic and other programs at work in between. */
  ghost predicate Life(states: seq<Ruleset>, events: seq<Event>) {
    && |states| == |events| + 1 && WellFormed(states[0]) && EmptyFilter(states[0])
    && forall i :: 0 <= i < |events| ==>
         Happens(states[i], events[i]) && Regular(events[i]) && Ticked(After(states[i], events[i]), states[i + 1])
  }

  lemma LegacySound(a: Ruleset, b: Ruleset)
    requires Sound(a) && OnlyLegacy(a, b) && WellFormed(b)
    ensures Sound(b)
  {
    hide OnlyLegacy, Sound, Ticked, SupportedFilter, SoundDir;
    assert WellFormed(a) by { SoundAt(a, Ingress); }
    hide WellFormed;
    TickedItself(a);
    LegacyTicks(a, a, b);
    TickedSound(a, b);
  }

  lemma RemovedEmpty(a: Ruleset)
    requires WellFormed(a)
    ensures WellFormed(a - {FILTER, NAT}) && EmptyFilter(a - {FILTER, NAT})
  {
  }

  lemma EventSound(a: Ruleset, e: Event)
    requires Sound(a) && Happens(a, e) && Regular(e)
    ensures Sound(e.mid) && Sound(After(a, e))
  {
    hide OnlyLegacy, Sound, PassStage, WellFormed, InputOk, DistinctPolicies, Selected, EmptyFilter;
    LegacySound(a, e.mid);
    if e.Passed? && e.k > 0 {
      StageSound(e.mid, e.inp, e.k);
    } else if e.Removed? && e.done {
      RemovedEmpty(e.mid);
      EmptySound(e.mid - {FILTER, NAT});
    }
  }

  /** What every life keeps. */
  lemma {:induction false} LifeSound(states: seq<Ruleset>, events: seq<Event>, n: nat)
    requires Life(states, events) && n <= |events|
    ensures Sound(states[n])
  {
    hide Happens, Regular, Sound, Ticked, EmptyFilter, WellFormed;
    if n == 0 {
      EmptySound(states[0]);
    } else {
      LifeSound(states, events, n - 1);
      EventSound(states[n - 1], events[n - 1]);
      TickedSound(After(states[n - 1], events[n - 1]), states[n]);
    }
  }

  /** The event is a pass that got through. */
  predicate GotThrough(e: Event) {
    e.Passed? && e.k == LAST_STAGE
  }

  lemma ServedStep(states: seq<Ruleset>, events: seq<Event>, n: nat)
    requires Life(states, events) && n < |events| && GotThrough(events[n])
    ensures Fit(events[n].inp) && Sound(events[n].mid)
    ensures Ticked(PassOf(events[n].mid, events[n].inp), states[n + 1])
  {
    hide Sound, Ticked, EmptyFilter, WellFormed, InputOk, DistinctPolicies, Selected, PassStage, PassOf, OnlyLegacy;
    LifeSound(states, events, n);
    EventSound(states[n], events[n]);
    PassStageLast(events[n].mid, events[n].inp);
  }

  /** Served exactly: in every life, after every pass that got through, whatever
      failed or was removed before, the verdict for every packet and mark is read
      off the entry chain rule by rule, each policy deciding by its peers chains in
      installed order and by the sets as they are. */
  lemma ServedExactly(states: seq<Ruleset>, events: seq<Event>, n: nat, d: Dir, pkt: Packet, m: Mark)
    requires Life(states, events) && n < |events| && GotThrough(events[n]) && Fit(events[n].inp)
    ensures var st := PassOf(events[n].mid, events[n].inp);
            var t := Tab(st, FILTER);
            Admits(Tab(states[n + 1], FILTER), pkt, HookOf(d), m) <==>
            || !InSet(t, PodInterfaces, Name(IfOf(d, pkt)))
            || Travel(ShapeAt(st, FILTER, EntryChain(d)), HeldScene(t, events[n].inp, d, pkt),
                      Go(Both(m))) != Stop(false)
  {
    hide Happens, Regular, Sound, Ticked, EmptyFilter, WellFormed, InputOk, DistinctPolicies, Selected, PassOf, Admits,
         InSet, Travel, HeldScene, Both;
    ServedStep(states, events, n);
    InstalledVerdict(events[n].mid, events[n].inp, d, pkt, m);
    TickedAdmits(PassOf(events[n].mid, events[n].inp), states[n + 1], FILTER, pkt, HookOf(d), m);
  }

  /** Served safely: a packet that the sets, once updated, and the lists represent
      right passes only if some policy allows it; without excepts, only if the
      policies let it. */
  lemma ServedSafely(states: seq<Ruleset>, events: seq<Event>, n: nat, d: Dir, pkt: Packet, m: Mark)
    requires Life(states, events) && n < |events| && GotThrough(events[n]) && Fit(events[n].inp)
    requires SetsServe(events[n].mid, events[n].inp, d, pkt) && InputExact(events[n].inp, d, pkt) && ValidPacket(pkt)
    requires AllReady(events[n].mid, events[n].inp, d) && PoliciesOk(PoliciesFor(events[n].inp, d), d) && !Both(m)
    requires Admits(Tab(states[n + 1], FILTER), pkt, HookOf(d), m)
    ensures Exempt(events[n].inp, d, pkt) || SomeDecides(events[n].inp, PoliciesFor(events[n].inp, d), d, pkt, Allow)
    ensures InputNoExcept(events[n].inp, d) ==> MayPass(events[n].inp, d, pkt)
  {
    hide Happens, Regular, Sound, Ticked, EmptyFilter, WellFormed, InputOk, DistinctPolicies, Selected, PassOf, Admits,
         SetsServe, InputExact, ValidPacket, AllReady, AllSettled, Exempt, SomeDecides, InputNoExcept, MayPass,
         PoliciesOk, Both, SupportedFilter, SoundDir;
    var rs, inp := events[n].mid, events[n].inp;
    ServedStep(states, events, n);
    SoundAt(rs, d);
    PassSettles(rs, inp, d);
    TickedAdmits(PassOf(rs, inp), states[n + 1], FILTER, pkt, HookOf(d), m);
    NeverTooMuch(rs, inp, d, pkt, m);
  }

  /** What that says of incoming packets on the fields themselves: a packet that
      passes is exempt, or an ingress rule of an ingress policy lets it in. */
  lemma ServedSafelyIn(states: seq<Ruleset>, events: seq<Event>, n: nat, pkt: Packet, m: Mark)
    requires Life(states, events) && n < |events| && GotThrough(events[n]) && Fit(events[n].inp)
    requires SetsServe(events[n].mid, events[n].inp, Ingress, pkt) && InputExact(events[n].inp, Ingress, pkt)
    requires AllReady(events[n].mid, events[n].inp, Ingress) && ValidPacket(pkt) && !Both(m)
    requires Admits(Tab(states[n + 1], FILTER), pkt, InputHook, m)
    ensures var inp := events[n].inp;
            S.ExemptIn(inp, pkt) ||
            exists i, j :: S.LetsIn(inp, i, j, pkt) && forall l :: l < j ==> !S.StopsIn(inp, i, l, pkt)
    ensures InputNoExcept(events[n].inp, Ingress) ==> S.MayEnter(events[n].inp, pkt)
  {
    hide Life, InputOk, DistinctPolicies, Selected, Admits, SetsServe, InputExact, ValidPacket, AllReady,
         SomeDecides, InputNoExcept, MayPass, Both, S.ExemptIn, S.LetsIn, S.StopsIn, S.MayEnter, OnPod, CommonAccepts;
    var inp := events[n].inp;
    PoliciesOkIn(inp, Ingress, PoliciesFor(inp, Ingress));
    ServedSafely(states, events, n, Ingress, pkt, m);
    S.ExemptSame(inp, pkt);
    S.EnterMeans(inp, pkt);
    if SomeDecides(inp, PoliciesFor(inp, Ingress), Ingress, pkt, Allow) {
      S.SomeLetsIn(inp, pkt);
    }
  }

  lemma ServedSafelyOut(states: seq<Ruleset>, events: seq<Event>, n: nat, pkt: Packet, m: Mark)
    requires Life(states, events) && n < |events| && GotThrough(events[n]) && Fit(events[n].inp)
    requires SetsServe(events[n].mid, events[n].inp, Egress, pkt) && InputExact(events[n].inp, Egress, pkt)
    requires AllReady(events[n].mid, events[n].inp, Egress) && ValidPacket(pkt) && !Both(m)
    requires Admits(Tab(states[n + 1], FILTER), pkt, OutputHook, m)
    ensures var inp := events[n].inp;
            S.ExemptOut(inp, pkt) ||
            exists i, j :: S.LetsOut(inp, i, j, pkt) && forall l :: l < j ==> !S.StopsOut(inp, i, l, pkt)
    ensures InputNoExcept(events[n].inp, Egress) ==> S.MayLeave(events[n].inp, pkt)
  {
    hide Life, InputOk, DistinctPolicies, Selected, Admits, SetsServe, InputExact, ValidPacket, AllReady,
         SomeDecides, InputNoExcept, MayPass, Both, S.ExemptOut, S.LetsOut, S.StopsOut, S.MayLeave, OnPod,
         CommonAccepts;
    var inp := events[n].inp;
    PoliciesOkIn(inp, Egress, PoliciesFor(inp, Egress));
    ServedSafely(states, events, n, Egress, pkt, m);
    S.ExemptSame(inp, pkt);
    S.LeaveMeans(inp, pkt);
    if SomeDecides(inp, PoliciesFor(inp, Egress), Egress, pkt, Allow) {
      S.SomeLetsOut(inp, pkt);
    }
  }

  // ---------------------------------------------------------- verdicts of calls

  /** A call of ApplyPolicyRules: the ruleset it finds, the one after the legacy
      cleanup, the one it leaves, and the input it selects. */
  datatype Call = Call(before: Ruleset, mid: Ruleset, after: Ruleset, inp: Input)

  /** The call succeeded. */
  ghost predicate Succeeds(c: Call) {
    && WellFormed(c.before) && WellFormed(c.mid) && OnlyLegacy(c.before, c.mid)
    && Fit(c.inp) && c.after == PassOf(c.mid, c.inp)
  }

  /** Successful calls from an empty filter table, with traffic and other programs
      at work in between, whose consecutive inputs are compatible: no surviving
      policy gains an interface and no interval flag changes. */
  ghost predicate CallRun(cs: seq<Call>) {
    && (cs != [] ==> EmptyFilter(cs[0].before))
    && (forall i :: 0 <= i < |cs| ==> Succeeds(cs[i]))
    && (forall i :: 0 < i < |cs| ==> Ticked(cs[i - 1].after, cs[i].before) && Compatible(cs[i - 1].inp, cs[i].inp))
  }

  /** The legacy cleanup leaves the managed tables alone. */
  lemma LegacyTicks(a: Ruleset, b: Ruleset, c: Ruleset)
    requires Ticked(a, b) && OnlyLegacy(b, c) && WellFormed(c)
    ensures Ticked(a, c)
  {
    hide WellFormed, SameTable, Spares;
  }

  lemma TickedItself(a: Ruleset)
    requires WellFormed(a)
    ensures Ticked(a, a)
  {
    hide WellFormed;
    forall t | t in a ensures SameTable(a[t], a[t]) {
    }
  }

  lemma LegacyEmpty(a: Ruleset, b: Ruleset)
    requires OnlyLegacy(a, b) && EmptyFilter(a)
    ensures EmptyFilter(b)
  {
    hide Spares;
    assert Tab(b, FILTER) == Tab(a, FILTER);
    forall c ensures ChainAt(b, FILTER, c) == [] {
      assert ChainAt(a, FILTER, c) == [];
    }
  }

  /** The rulesets that the passes of the first n + 1 calls work on. */
  ghost function Mids(cs: seq<Call>, n: nat): seq<Ruleset>
    requires n < |cs|
  {
    seq(n + 1, i requires 0 <= i <= n => cs[i].mid) + [cs[n].after]
  }

  ghost function Inputs(cs: seq<Call>, n: nat): seq<Input>
    requires n < |cs|
  {
    seq(n + 1, i requires 0 <= i <= n => cs[i].inp)
  }

  lemma AfterOk(c: Call)
    requires Succeeds(c)
    ensures WellFormed(c.after)
  {
    hide PassLog, WellFormed, InputOk, DistinctPolicies, Selected, OnlyLegacy, Stage;
    StageOk(c.mid, PassLog(c.mid, c.inp), LAST_STAGE);
  }

  lemma ServedHistory(cs: seq<Call>, n: nat)
    requires CallRun(cs) && n < |cs|
    ensures History(Mids(cs, n), Inputs(cs, n))
  {
    hide WellFormed, EmptyFilter, Ticked, Compatible, OnlyLegacy, PassOf, InputOk, DistinctPolicies, Selected;
    var states, inps := Mids(cs, n), Inputs(cs, n);
    assert Succeeds(cs[0]);
    LegacyEmpty(cs[0].before, cs[0].mid);
    forall i | 0 <= i < |inps| ensures Fit(inps[i]) && Ticked(PassOf(states[i], inps[i]), states[i + 1]) {
      assert Succeeds(cs[i]);
      if i < n {
        assert Succeeds(cs[i + 1]);
        assert Ticked(cs[(i + 1) - 1].after, cs[i + 1].before);
        LegacyTicks(cs[i].after, cs[i + 1].before, cs[i + 1].mid);
      } else {
        AfterOk(cs[n]);
        TickedItself(cs[n].after);
      }
    }
  }

  /** Served right: after each of the calls, whatever came before, a packet passes
      iff the selected policies let it, as after a first call on empty tables. */
  lemma ServedRight(cs: seq<Call>, n: nat, blank: Ruleset, d: Dir, pkt: Packet, m: Mark)
    requires CallRun(cs) && n < |cs| && WellFormed(blank) && EmptyFilter(blank)
    requires Fit(cs[n].inp) && InputExact(cs[n].inp, d, pkt) && InputNoExcept(cs[n].inp, d) && ValidPacket(pkt)
    requires !Both(m)
    ensures Admits(Tab(cs[n].after, FILTER), pkt, HookOf(d), m) <==> MayPass(cs[n].inp, d, pkt)
    ensures Admits(Tab(cs[n].after, FILTER), pkt, HookOf(d), m) <==>
            Admits(Tab(PassOf(blank, cs[n].inp), FILTER), pkt, HookOf(d), m)
  {
    hide CallRun, History, WellFormed, EmptyFilter, Admits, MayPass, InputExact, InputNoExcept, ValidPacket, Both,
         PassOf, InputOk, DistinctPolicies, Selected;
    ServedHistory(cs, n);
    IncrementalEqualsFresh(Mids(cs, n), Inputs(cs, n), n, blank, d, pkt, m);
  }

  /** On the fields themselves: after each call an incoming packet passes iff it is
      exempt or an ingress rule of a selected ingress policy lets it in. */
  lemma ServedIngress(cs: seq<Call>, n: nat, pkt: Packet, m: Mark)
    requires CallRun(cs) && n < |cs| && Fit(cs[n].inp) && ValidPacket(pkt) && !Both(m)
    requires InputExact(cs[n].inp, Ingress, pkt) && InputNoExcept(cs[n].inp, Ingress)
    ensures Admits(Tab(cs[n].after, FILTER), pkt, InputHook, m) <==> S.MayEnter(cs[n].inp, pkt)
  {
    hide CallRun, WellFormed, EmptyFilter, Admits, MayPass, InputExact, InputNoExcept, ValidPacket, Both, PassOf,
         InputOk, DistinctPolicies, Selected, S.MayEnter;
    BlankEmpty();
    ServedRight(cs, n, map[], Ingress, pkt, m);
    S.EnterMeans(cs[n].inp, pkt);
  }

  /** And an outgoing one iff it is exempt or an egress rule of a selected egress
      policy lets it out. */
  lemma ServedEgress(cs: seq<Call>, n: nat, pkt: Packet, m: Mark)
    requires CallRun(cs) && n < |cs| && Fit(cs[n].inp) && ValidPacket(pkt) && !Both(m)
    requires InputExact(cs[n].inp, Egress, pkt) && InputNoExcept(cs[n].inp, Egress)
    ensures Admits(Tab(cs[n].after, FILTER), pkt, OutputHook, m) <==> S.MayLeave(cs[n].inp, pkt)
  {
    hide CallRun, WellFormed, EmptyFilter, Admits, MayPass, InputExact, InputNoExcept, ValidPacket, Both, PassOf,
         InputOk, DistinctPolicies, Selected, S.MayLeave;
    BlankEmpty();
    ServedRight(cs, n, map[], Egress, pkt, m);
    S.LeaveMeans(cs[n].inp, pkt);
  }

  lemma BlankEmpty()
    ensures WellFormed(map[]) && EmptyFilter(map[])
  {
  }

  /** The same with excepts: if the call finds its peers chains so that it leaves
      them in order, every packet that is not allowed by one policy and denied by
      another is served as on empty tables. */
  lemma ServedWithExcepts(cs: seq<Call>, n: nat, blank: Ruleset, d: Dir, pkt: Packet, m: Mark)
    requires CallRun(cs) && n < |cs| && WellFormed(blank) && EmptyFilter(blank)
    requires AllReady(cs[n].mid, cs[n].inp, d)
    requires Fit(cs[n].inp) && InputExact(cs[n].inp, d, pkt) && ValidPacket(pkt) && !Both(m)
    requires PoliciesOk(PoliciesFor(cs[n].inp, d), d)
    requires !(SomeDecides(cs[n].inp, PoliciesFor(cs[n].inp, d), d, pkt, Allow) &&
               SomeDecides(cs[n].inp, PoliciesFor(cs[n].inp, d), d, pkt, Deny))
    ensures Admits(Tab(cs[n].after, FILTER), pkt, HookOf(d), m) <==> MayPass(cs[n].inp, d, pkt)
    ensures Admits(Tab(cs[n].after, FILTER), pkt, HookOf(d), m) <==>
            Admits(Tab(PassOf(blank, cs[n].inp), FILTER), pkt, HookOf(d), m)
  {
    hide CallRun, History, WellFormed, EmptyFilter, Admits, MayPass, InputExact, ValidPacket, Both, PassOf, InputOk,
         DistinctPolicies, Selected, SomeDecides, AllReady, PoliciesOk;
    ServedHistory(cs, n);
    FreshUnlessContested(Mids(cs, n), Inputs(cs, n), n, blank, d, pkt, m);
  }
}
