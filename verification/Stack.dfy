/**
  The server's application stack over whole runs of requests and ticks, whatever the clients send:
  its order, and when a resume goes out. Entries of new applications are non-negative and new.
 */
module Stack {
  import opened Messages
  import opened Server

  /** An application's id with the connection it registered on, or that a message went out on. */
  datatype Entry = Entry(connection: nat, id: int)

  /** The stack with its history: who asked to be registered, the ids that a kill or a death struck, to
      whom an appResume was sent, and who came to the top of the stack by a removal. */
  datatype History = History(
    apps: seq<App>, registered: seq<Entry>, removed: set<int>, resumed: seq<Entry>, promoted: seq<Entry>)

  datatype Step =
    | Request(connection: nat, message: Message, newId: int)
    | Tick(killPressed: bool, dead: set<nat>)

  const FRESH := History([], [], {}, [], [])

  predicate Enabled(h: History, step: Step) {
    step.Request? ==> step.newId >= 0 && forall e | e in h.registered :: e.id != step.newId
  }

  function Result(h: History, step: Step, renderers: nat): Outcome {
    match step
    case Request(c, m, newId) => Handled(h.apps, c, m, newId, renderers)
    case Tick(killPressed, dead) => Ticked(h.apps, killPressed, dead)
  }

  function Entries(apps: seq<App>): seq<Entry> {
    seq(|apps|, i requires 0 <= i < |apps| => Entry(apps[i].connection, apps[i].id))
  }

  /** Whom the messages tell to resume, and on which connection, in order. */
  function Resumes(sent: seq<Envelope>): seq<Entry> {
    if sent == [] then []
    else
      var last := sent[|sent| - 1];
      Resumes(sent[..|sent| - 1])
        + (if last.message.kind == AppResume then [Entry(last.connection, last.message.appId)] else [])
  }

  /** Whom a removal brings to the top: the stack is shorter, not empty, and ends on another id. */
  function Promotion(before: seq<Entry>, after: seq<Entry>): seq<Entry> {
    if |after| < |before| && after != [] && after[|after| - 1].id != before[|before| - 1].id
    then [after[|after| - 1]] else []
  }

  /** The ids a step should take off the stack: that of a kill, or those of dead connections. */
  function StruckIds(entries: seq<Entry>, step: Step): set<int> {
    match step
    case Request(_, m, _) => set e | e in entries && m.kind == AppKill && e.id == m.appId :: e.id
    case Tick(_, dead) => set e | e in entries && e.connection in dead :: e.id
  }

  /** Whether a step asks for a registration. */
  predicate Registers(step: Step) {
    step.Request? && step.message.kind == RegisterApp && step.message.appId == 0
  }

  function Apply(h: History, step: Step, renderers: nat): History {
    var out := Result(h, step, renderers);
    var before, after := Entries(h.apps), Entries(out.apps);
    History(
      out.apps,
      h.registered + (if Registers(step) then [Entry(step.connection, step.newId)] else []),
      h.removed + StruckIds(before, step),
      h.resumed + Resumes(out.sent),
      h.promoted + Promotion(before, after))
  }

  predicate IsRun(h: History, steps: seq<Step>, renderers: nat)
    decreases |steps|
  {
    steps == [] || (Enabled(h, steps[0]) && IsRun(Apply(h, steps[0], renderers), steps[1..], renderers))
  }

  function After(h: History, steps: seq<Step>, renderers: nat): History
    requires IsRun(h, steps, renderers)
    decreases |steps|
  {
    if steps == [] then h else After(Apply(h, steps[0], renderers), steps[1..], renderers)
  }

  /** The entries in order, without those of some ids. */
  function Filter(entries: seq<Entry>, gone: set<int>): seq<Entry> {
    if entries == [] then []
    else
      var last := entries[|entries| - 1];
      Filter(entries[..|entries| - 1], gone) + (if last.id in gone then [] else [last])
  }

  ghost predicate Known(registered: seq<Entry>, id: int) {
    exists e :: e in registered && e.id == id
  }

  ghost predicate Invariant(h: History) {
    && Entries(h.apps) == Filter(h.registered, h.removed)
    && h.resumed == h.promoted && (forall e | e in h.promoted :: e in h.registered)
    && Distinct(h.registered)
    && (forall e | e in h.registered :: e.id >= 0)
    && (forall id | id in h.removed :: Known(h.registered, id))
  }

  // ----- Filtering -----

  lemma {:induction false} FilterFacts(entries: seq<Entry>, gone: set<int>)
    ensures forall e :: e in Filter(entries, gone) <==> e in entries && e.id !in gone
    ensures |Filter(entries, gone)| <= |entries|
    ensures |Filter(entries, gone)| == |entries| ==> Filter(entries, gone) == entries
    ensures entries != [] && entries[|entries| - 1].id !in gone ==>
              Filter(entries, gone) != [] && Filter(entries, gone)[|Filter(entries, gone)| - 1] == entries[|entries| - 1]
  {
    if entries != [] {
      FilterFacts(entries[..|entries| - 1], gone);
      assert entries == entries[..|entries| - 1] + [entries[|entries| - 1]];
    }
  }

  lemma {:induction false} FilterAgrees(entries: seq<Entry>, a: set<int>, b: set<int>)
    requires forall e | e in entries :: e.id in a <==> e.id in b
    ensures Filter(entries, a) == Filter(entries, b)
  {
    if entries != [] {
      FilterAgrees(entries[..|entries| - 1], a, b);
      assert entries[|entries| - 1] in entries;
    }
  }

  lemma {:induction false} FilterTwice(entries: seq<Entry>, a: set<int>, b: set<int>)
    ensures Filter(Filter(entries, a), b) == Filter(entries, a + b)
  {
    if entries != [] {
      var front, last := entries[..|entries| - 1], entries[|entries| - 1];
      FilterTwice(front, a, b);
      if last.id !in a {
        assert Filter(entries, a)[..|Filter(front, a)|] == Filter(front, a);
      } else {
        assert Filter(entries, a) == Filter(front, a) && Filter(entries, a + b) == Filter(front, a + b);
      }
    }
  }

  ghost predicate Distinct(entries: seq<Entry>) {
    forall i, j | 0 <= i < j < |entries| :: entries[i].id != entries[j].id
  }

  lemma DistinctFront(entries: seq<Entry>)
    requires Distinct(entries) && entries != []
    ensures var front, last := entries[..|entries| - 1], entries[|entries| - 1];
            Distinct(front) && forall e | e in front :: e.id != last.id
  {
    var front := entries[..|entries| - 1];
    assert forall i | 0 <= i < |front| :: front[i] == entries[i];
  }

  lemma DistinctSnoc(entries: seq<Entry>, last: Entry)
    requires Distinct(entries) && forall e | e in entries :: e.id != last.id
    ensures Distinct(entries + [last])
  {
    assert forall i | 0 <= i < |entries| :: entries[i] in entries;
  }

  lemma {:induction false} FilterDistinct(entries: seq<Entry>, gone: set<int>)
    requires Distinct(entries)
    ensures Distinct(Filter(entries, gone))
  {
    if entries != [] {
      var front, last := entries[..|entries| - 1], entries[|entries| - 1];
      DistinctFront(entries);
      FilterDistinct(front, gone);
      FilterFacts(front, gone);
      hide Distinct;
      if last.id !in gone {
        DistinctSnoc(Filter(front, gone), last);
      }
    }
  }

  lemma EntriesSnoc(apps: seq<App>, a: App)
    ensures Entries(apps + [a]) == Entries(apps) + [Entry(a.connection, a.id)]
  {
  }

  lemma {:induction false} WithoutEntries(apps: seq<App>, id: int)
    ensures Entries(Without(apps, id)) == Filter(Entries(apps), {id})
  {
    if apps != [] {
      var front := apps[..|apps| - 1];
      WithoutEntries(front, id);
      assert Entries(apps)[..|apps| - 1] == Entries(front);
      EntriesSnoc(Without(front, id), Top(apps));
      assert Without(front, id) + [] == Without(front, id);
    }
  }

  function DeadIds(apps: seq<App>, dead: set<nat>): set<int> {
    set a | a in apps && a.connection in dead :: a.id
  }

  lemma DeadIdsSnoc(front: seq<App>, top: App, dead: set<nat>)
    requires forall e | e in Entries(front) :: e.id != top.id
    ensures top.id !in DeadIds(front, dead)
    ensures DeadIds(front + [top], dead) == DeadIds(front, dead) + (if top.connection in dead then {top.id} else {})
  {
    forall a | a in front
      ensures a.id != top.id
    {
      var i :| 0 <= i < |front| && front[i] == a;
      assert Entries(front)[i] in Entries(front);
    }
    assert forall a | a in front :: a in front + [top];
    assert forall a | a in front + [top] :: a in front || a == top;
  }

  lemma {:induction false} AliveEntries(apps: seq<App>, dead: set<nat>)
    requires Distinct(Entries(apps))
    ensures Entries(Alive(apps, dead)) == Filter(Entries(apps), DeadIds(apps, dead))
  {
    if apps != [] {
      var front, top := apps[..|apps| - 1], Top(apps);
      assert apps == front + [top];
      EntriesSnoc(front, top);
      DistinctFront(Entries(apps));
      assert Entries(apps)[..|apps| - 1] == Entries(front);
      AliveEntries(front, dead);
      DeadIdsSnoc(front, top, dead);
      hide DeadIds, Distinct, Entries;
      FilterAgrees(Entries(front), DeadIds(front, dead), DeadIds(apps, dead));
      EntriesSnoc(Alive(front, dead), top);
      assert Alive(front, dead) + [] == Alive(front, dead);
    }
  }

  lemma {:induction false} WithStateEntries(apps: seq<App>, id: int, state: AppState)
    ensures Entries(WithState(apps, id, state)) == Entries(apps)
  {
    if apps != [] {
      WithStateEntries(apps[1..], id, state);
      assert Entries(apps) == [Entry(apps[0].connection, apps[0].id)] + Entries(apps[1..]);
      var r := WithState(apps, id, state);
      assert Entries(r) == [Entry(r[0].connection, r[0].id)] + Entries(r[1..]);
      if apps[0].id != id {
        assert r[1..] == WithState(apps[1..], id, state);
      } else {
        assert r[1..] == apps[1..];
      }
    }
  }

  // ----- One step -----

  lemma ResumesFew(e: Envelope, f: Envelope)
    ensures Resumes([]) == []
    ensures Resumes([e]) == if e.message.kind == AppResume then [Entry(e.connection, e.message.appId)] else []
    ensures Resumes([e, f]) == Resumes([e]) + Resumes([f])
  {
    assert [e][..0] == [] && [e, f][..1] == [e] && [f][..0] == [];
  }

  lemma {:induction false} NoResumes(sent: seq<Envelope>)
    requires forall e | e in sent :: e.message.kind != AppResume
    ensures Resumes(sent) == []
  {
    if sent != [] {
      NoResumes(sent[..|sent| - 1]);
    }
  }

  /** Entries leave the stack: they become removed ones, and the rest keeps its order. */
  lemma FilterKeeps(h: History, out: seq<App>, gone: set<int>, struck: set<int>)
    requires Invariant(h) && Entries(out) == Filter(Entries(h.apps), gone)
    requires forall e | e in Entries(h.apps) :: e.id in gone <==> e.id in struck
    requires forall id | id in struck :: Known(Entries(h.apps), id)
    ensures var removed := h.removed + struck;
            Entries(out) == Filter(h.registered, removed) && forall id | id in removed :: Known(h.registered, id)
  {
    FilterFacts(h.registered, h.removed);
    hide Filter, Distinct, Entries;
    FilterAgrees(Entries(h.apps), gone, struck);
    FilterTwice(h.registered, h.removed, struck);
    forall id | id in struck
      ensures Known(h.registered, id)
    {
      var e :| e in Entries(h.apps) && e.id == id;
      assert e in h.registered;
    }
  }

  /** After a removal the top id differs exactly when there is a promotion. */
  lemma PromotionIsResume(apps: seq<App>, rest: seq<App>, gone: set<int>)
    requires Entries(rest) == Filter(Entries(apps), gone) && forall e | e in Entries(apps) :: e.id >= 0
    ensures TopId(rest) == -1 <==> rest == []
    ensures Promotion(Entries(apps), Entries(rest)) == if TopId(apps) != TopId(rest) then Resumes(Resumed(rest)) else []
    ensures |Entries(rest)| <= |Entries(apps)|
  {
    FilterFacts(Entries(apps), gone);
    hide Filter, Resumes;
    TopIsLast(apps);
    TopIsLast(rest);
    if rest != [] {
      assert Entries(rest)[|rest| - 1] in Entries(rest);
      ResumesFew(ToApp(Top(rest), AppResume), ToApp(Top(rest), AppResume));
      hide Entries;
    } else {
      ResumesFew(Envelope(0, Message(Other, 0, false)), Envelope(0, Message(Other, 0, false)));
      hide Entries;
    }
  }

  lemma TopIsLast(apps: seq<App>)
    ensures |Entries(apps)| == |apps| && (apps != [] ==> Entries(apps)[|apps| - 1] == Entry(Top(apps).connection, TopId(apps)))
  {
  }

  lemma {:induction false} ResumesAppend(a: seq<Envelope>, b: seq<Envelope>)
    ensures Resumes(a + b) == Resumes(a) + Resumes(b)
    decreases |b|
  {
    if b == [] {
      assert a + b == a;
    } else {
      ResumesAppend(a, b[..|b| - 1]);
      assert (a + b)[..|a + b| - 1] == a + b[..|b| - 1];
    }
  }

  /** What a tick sends: perhaps a kill, perhaps a resume. */
  lemma TickSends(apps: seq<App>, killPressed: bool, dead: set<nat>) returns (kill: seq<Envelope>)
    requires TopId(Alive(apps, dead)) == -1 <==> Alive(apps, dead) == []
    ensures var rest := Alive(apps, dead);
            Ticked(apps, killPressed, dead).sent == kill + (if TopId(apps) != TopId(rest) then Resumed(rest) else [])
    ensures Resumes(kill) == []
  {
    kill := if killPressed && apps != [] then [Envelope(Top(apps).connection, Message(AppKill, 0, false))] else [];
    NoResumes(kill);
    hide Resumes, Alive;
  }

  lemma TickResumes(apps: seq<App>, killPressed: bool, dead: set<nat>, gone: set<int>)
    requires Entries(Alive(apps, dead)) == Filter(Entries(apps), gone) && forall e | e in Entries(apps) :: e.id >= 0
    ensures Resumes(Ticked(apps, killPressed, dead).sent) == Promotion(Entries(apps), Entries(Alive(apps, dead)))
  {
    var rest := Alive(apps, dead);
    NoResumes([]);
    hide *;
    PromotionIsResume(apps, rest, gone);
    var kill := TickSends(apps, killPressed, dead);
    ResumesAppend(kill, if TopId(apps) != TopId(rest) then Resumed(rest) else []);
  }

  /** A removal of one id changes the top exactly if the top has it. */
  lemma TopLeaves(apps: seq<App>, rest: seq<App>, id: int)
    requires Entries(rest) == Filter(Entries(apps), {id}) && forall e | e in Entries(apps) :: e.id >= 0
    ensures apps != [] && Top(apps).id == id <==> TopId(apps) != TopId(rest)
  {
    FilterFacts(Entries(apps), {id});
    TopIsLast(apps);
    TopIsLast(rest);
    if apps != [] {
      assert Entries(apps)[|apps| - 1] in Entries(apps);
    }
    if rest != [] {
      assert Entries(rest)[|rest| - 1] in Entries(rest);
    }
    hide Filter, Entries;
  }

  lemma KillResumes(apps: seq<App>, id: int)
    requires forall e | e in Entries(apps) :: e.id >= 0
    ensures var rest := Without(apps, id);
            && Entries(rest) == Filter(Entries(apps), {id})
            && Promotion(Entries(apps), Entries(rest)) ==
               if apps != [] && Top(apps).id == id then Resumes(Resumed(rest)) else []
  {
    WithoutEntries(apps, id);
    hide *;
    PromotionIsResume(apps, Without(apps, id), {id});
    TopLeaves(apps, Without(apps, id), id);
  }

  lemma PromotedIsRegistered(h: History, after: seq<Entry>, gone: set<int>)
    requires Invariant(h) && after == Filter(Entries(h.apps), gone)
    ensures forall e | e in Promotion(Entries(h.apps), after) :: e in h.registered
  {
    FilterFacts(Entries(h.apps), gone);
    FilterFacts(h.registered, h.removed);
    hide Filter, Entries, Distinct, Known;
  }

  lemma StruckAreKnown(entries: seq<Entry>, step: Step)
    ensures forall id | id in StruckIds(entries, step) :: Known(entries, id)
  {
  }

  /** A step that registers nothing keeps the invariant if it filters the ids and resumes the promoted. */
  lemma FilterStepKeeps(h: History, step: Step, renderers: nat, gone: set<int>)
    requires Invariant(h)
    requires var out := Result(h, step, renderers);
             Entries(out.apps) == Filter(Entries(h.apps), gone) && Resumes(out.sent) == Promotion(Entries(h.apps), Entries(out.apps))
    requires !Registers(step)
    requires forall e | e in Entries(h.apps) :: e.id in gone <==> e.id in StruckIds(Entries(h.apps), step)
    ensures Invariant(Apply(h, step, renderers))
  {
    var out := Result(h, step, renderers);
    StruckAreKnown(Entries(h.apps), step);
    FilterKeeps(h, out.apps, gone, StruckIds(Entries(h.apps), step));
    PromotedIsRegistered(h, Entries(out.apps), gone);
    hide Filter, Resumes, Result, Promotion, StruckIds, Registers, Distinct, Known;
    assert h.registered + [] == h.registered;
  }

  lemma {:induction false} FilterNone(entries: seq<Entry>)
    ensures Filter(entries, {}) == entries
  {
    if entries != [] {
      FilterNone(entries[..|entries| - 1]);
    }
  }

  lemma PushKeeps(h: History, apps: seq<App>, entry: Entry)
    requires Invariant(h) && entry.id >= 0 && forall e | e in h.registered :: e.id != entry.id
    requires Entries(apps) == Entries(h.apps) + [entry]
    ensures Invariant(h.(apps := apps, registered := h.registered + [entry]))
  {
    var registered := h.registered + [entry];
    assert registered[..|h.registered|] == h.registered;
    assert entry.id !in h.removed;
    assert Filter(registered, h.removed) == Filter(h.registered, h.removed) + [entry];
    forall id | id in h.removed
      ensures Known(registered, id)
    {
      assert Known(h.registered, id);
    }
    hide Filter;
  }

  lemma NoneStruck(entries: seq<Entry>, step: Step)
    requires step.Request? && step.message.kind != AppKill
    ensures StruckIds(entries, step) == {}
  {
  }

  lemma RegisterIsPush(h: History, step: Step, renderers: nat)
    requires Registers(step)
    ensures var apps := h.apps + [App(step.newId, step.connection, Unknown)];
            var entry := Entry(step.connection, step.newId);
            && Entries(apps) == Entries(h.apps) + [entry]
            && Apply(h, step, renderers) == h.(apps := apps, registered := h.registered + [entry])
  {
    assert step.Request?;
    RegisterSends(h, step, renderers);
    hide *;
    EntriesSnoc(h.apps, App(step.newId, step.connection, Unknown));
    PushIs(h, step, renderers);
  }

  lemma PushIs(h: History, step: Step, renderers: nat)
    requires Registers(step)
    requires var out, entry := Result(h, step, renderers), Entry(step.connection, step.newId);
             Entries(out.apps) == Entries(h.apps) + [entry] && Resumes(out.sent) == []
    ensures Apply(h, step, renderers) ==
            h.(apps := Result(h, step, renderers).apps,
               registered := h.registered + [Entry(step.connection, step.newId)])
  {
    hide Resumes, Entries, Result;
    NoneStruck(Entries(h.apps), step);
    hide StruckIds;
    assert h.removed + {} == h.removed && h.resumed + [] == h.resumed && h.promoted + [] == h.promoted;
  }

  lemma RegisterSends(h: History, step: Step, renderers: nat)
    requires Registers(step)
    ensures var out := Result(h, step, renderers);
            out.apps == h.apps + [App(step.newId, step.connection, Unknown)] && Resumes(out.sent) == []
  {
    NoResumes(Result(h, step, renderers).sent);
    hide Resumes;
  }

  lemma DeadAreStruck(apps: seq<App>, step: Step)
    requires step.Tick?
    ensures StruckIds(Entries(apps), step) == DeadIds(apps, step.dead)
  {
    forall a | a in apps
      ensures Entry(a.connection, a.id) in Entries(apps)
    {
      var i :| 0 <= i < |apps| && apps[i] == a;
      assert Entries(apps)[i] == Entry(a.connection, a.id);
    }
    forall e | e in Entries(apps)
      ensures exists a :: a in apps && e == Entry(a.connection, a.id)
    {
      var i :| 0 <= i < |apps| && Entries(apps)[i] == e;
      assert apps[i] in apps;
    }
  }

  lemma KillStrikes(entries: seq<Entry>, step: Step)
    requires step.Request? && step.message.kind == AppKill
    ensures forall e | e in entries :: e.id in StruckIds(entries, step) <==> e.id == step.message.appId
  {
  }

  lemma KnownEntries(h: History)
    requires Invariant(h)
    ensures Distinct(Entries(h.apps)) && forall e | e in Entries(h.apps) :: e.id >= 0
  {
    FilterFacts(h.registered, h.removed);
    FilterDistinct(h.registered, h.removed);
    hide Filter, Distinct, Known;
  }

  lemma TickKeeps(h: History, step: Step, renderers: nat)
    requires Invariant(h) && step.Tick?
    ensures Invariant(Apply(h, step, renderers))
  {
    KnownEntries(h);
    AliveEntries(h.apps, step.dead);
    TickResumes(h.apps, step.killPressed, step.dead, DeadIds(h.apps, step.dead));
    DeadAreStruck(h.apps, step);
    hide Filter, Resumes, Invariant, Apply, Distinct, Promotion, Entries, DeadIds, StruckIds;
    FilterStepKeeps(h, step, renderers, DeadIds(h.apps, step.dead));
  }

  lemma KillKeeps(h: History, step: Step, renderers: nat)
    requires Invariant(h) && step.Request? && step.message.kind == AppKill
    ensures Invariant(Apply(h, step, renderers))
  {
    KnownEntries(h);
    KillResumes(h.apps, step.message.appId);
    NoResumes([]);
    KillStrikes(Entries(h.apps), step);
    hide StruckIds, Filter, Resumes, Invariant, Apply, Distinct, Promotion, Entries, Without, Resumed;
    FilterStepKeeps(h, step, renderers, {step.message.appId});
  }

  /** Any other request leaves the entries as they are and resumes nobody. */
  lemma OtherSends(h: History, step: Step, renderers: nat)
    requires step.Request? && !Registers(step) && step.message.kind != AppKill
    ensures Entries(Result(h, step, renderers).apps) == Entries(h.apps)
    ensures Resumes(Result(h, step, renderers).sent) == []
  {
    NoResumes(Result(h, step, renderers).sent);
    hide Resumes, Entries;
    WithStateEntries(h.apps, step.message.appId, Paused);
    WithStateEntries(h.apps, step.message.appId, Running);
    hide WithState;
  }

  lemma OtherKeeps(h: History, step: Step, renderers: nat)
    requires Invariant(h) && step.Request? && !Registers(step) && step.message.kind != AppKill
    ensures Invariant(Apply(h, step, renderers))
  {
    OtherSends(h, step, renderers);
    NoneStruck(Entries(h.apps), step);
    hide StruckIds, Filter, Resumes, Invariant, Apply, Result, Entries, Registers;
    FilterNone(Entries(h.apps));
    FilterStepKeeps(h, step, renderers, {});
  }

  lemma StepKeeps(h: History, step: Step, renderers: nat)
    requires Invariant(h) && Enabled(h, step)
    ensures Invariant(Apply(h, step, renderers))
  {
    if step.Tick? {
      TickKeeps(h, step, renderers);
    } else if Registers(step) {
      RegisterIsPush(h, step, renderers);
      PushKeeps(h, h.apps + [App(step.newId, step.connection, Unknown)], Entry(step.connection, step.newId));
    } else if step.message.kind == AppKill {
      KillKeeps(h, step, renderers);
    } else {
      OtherKeeps(h, step, renderers);
    }
  }

  lemma {:induction false} RunKeeps(h: History, steps: seq<Step>, renderers: nat)
    requires Invariant(h) && IsRun(h, steps, renderers)
    ensures Invariant(After(h, steps, renderers))
    decreases |steps|
  {
    if steps != [] {
      StepKeeps(h, steps[0], renderers);
      RunKeeps(Apply(h, steps[0], renderers), steps[1..], renderers);
    }
  }

  /** In every run the stack is the order of the registrations asked for, without the applications that a
      kill or the death of their connection struck, and a resume was sent once for every removal that
      brought another application to the top, to that one and on the connection it registered on, in that
      order, and never otherwise. */
  lemma StackOrderAndResumes(steps: seq<Step>, renderers: nat)
    requires IsRun(FRESH, steps, renderers)
    ensures var h := After(FRESH, steps, renderers);
            && Entries(h.apps) == Filter(h.registered, h.removed)
            && h.resumed == h.promoted && (forall e | e in h.resumed :: e in h.registered)
            && Distinct(h.registered)
  {
    assert Entries([]) == [];
    RunKeeps(FRESH, steps, renderers);
  }
}
