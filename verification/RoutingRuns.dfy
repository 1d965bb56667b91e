/**
 Every interleaving of edits, loads, saves and tab discards on one section of
 the routing editor.  Each event has its own time, the value of `clock` after it.
 */
module RoutingRuns {
  import opened Wrappers
  import opened RoutingEditor

  type LoadId = nat

  /** `askedAt` is when a forced reload, or a tab discard, was asked for last before the load went out. */
  datatype LoadInfo = LoadInfo(load: Load, forced: bool, issuedAt: nat, askedAt: nat)

  /** Was the last answer of the server taken over, or was it the payload of a load that no longer applied? */
  datatype Arrival = Taken | Dropped(id: LoadId, info: LoadInfo)

  /**
   `base` is the content the server confirmed last: the payload of an applied load, the reply to a save of the
   topics, or the form of which a save of the channels stored the fields.  `submitted` is the form that the
   save under way was made of.  `received` is what it answered last, taken over or not.
   */
  datatype World = World(
    kind: Kind,
    section: Section,
    loads: map<LoadId, LoadInfo>,
    nextLoad: LoadId,
    save: Option<Draft>,
    submitted: Content,
    base: Content,
    received: Content,
    arrival: Arrival,
    batchActive: bool,
    clock: nat,
    lastEdit: nat,
    lastAsk: nat,
    lastSaveStart: nat,
    lastSaveEnd: nat)

  datatype Event =
    | Edit(content: Content)
    | RequestLoad(force: bool)
    | Loaded(id: LoadId, payload: Content)
    | LoadFailed(id: LoadId)
    | RequestSave(batch: bool)
    | SaveDone(reply: Option<Content>)
    | TabDiscard
    | Batch(active: bool)

  function Initial(kind: Kind, form: Content): World {
    World(kind, Section(false, 0, 0, false, false, form), map[], 0, None, form, form, form, Taken, false, 0, 0, 0, 0, 0)
  }

  function Issue(w: World, s: Section, load: Load, forced: bool): World {
    w.(section := s, loads := w.loads[w.nextLoad := LoadInfo(load, forced, w.clock, w.lastAsk)],
       nextLoad := w.nextLoad + 1)
  }

  function Answered(w: World, d: Draft, reply: Option<Content>): Section {
    if reply.Some? then SaveSucceeded(w.section, w.kind, d, reply.value) else w.section
  }

  /** The save is over, and a reload that is owed has not gone out yet. */
  function Ended(w: World, d: Draft, reply: Option<Content>): World {
    var base := if reply.None? then w.base else if w.kind.Topics? then reply.value else w.submitted;
    w.(section := Answered(w, d, reply).(saving := false), save := None, base := base, lastSaveEnd := w.clock,
       received := if reply.None? then w.received else base,
       arrival := if reply.None? then w.arrival else Taken)
  }

  function FinishSave(w: World, d: Draft, reply: Option<Content>): World {
    var ended := Ended(w, d, reply);
    var section := EndSave(Answered(w, d, reply));
    if ended.section.forceReload then Issue(ended, section, LoadOf(ended.section), true)
    else ended.(section := section)
  }

  function Apply(w: World, e: Event): World {
    var s := w.section;
    match e
    case Edit(content) => w.(section := EditForm(s, content), lastEdit := w.clock)
    case RequestLoad(force) =>
      var asked := if force then w.(lastAsk := w.clock) else w;
      if Loads(s, force) then Issue(asked, BeginLoad(s, force), LoadOf(s), Forces(s, force))
      else asked.(section := BeginLoad(s, force))
    case Loaded(id, payload) =>
      if id in w.loads then
        w.(section := ApplyLoad(s, w.loads[id].load, payload), loads := w.loads - {id},
           base := if Applies(s, w.loads[id].load) then payload else w.base,
           received := payload,
           arrival := if Applies(s, w.loads[id].load) then Taken else Dropped(id, w.loads[id]))
      else w
    case LoadFailed(id) => w.(loads := w.loads - {id})
    case RequestSave(batch) =>
      if Saves(s, w.batchActive, batch) then
        w.(section := BeginSave(s), save := Some(Draft(s.revision, Submitted(s.form))), submitted := s.form,
           lastSaveStart := w.clock)
      else w
    case SaveDone(reply) => if w.save.Some? then FinishSave(w, w.save.value, reply) else w
    case TabDiscard => w.(section := DiscardTab(s), lastAsk := w.clock)
    case Batch(active) => w.(batchActive := active)
  }

  function Step(w: World, e: Event): World {
    Apply(w.(clock := w.clock + 1), e)
  }

  function Run(start: World, events: seq<Event>): World {
    if events == [] then start else Step(Run(start, events[..|events| - 1]), events[|events| - 1])
  }

  // ---- The invariant ----

  predicate LoadOk(w: World, id: LoadId, info: LoadInfo) {
    var s := w.section;
    && id < w.nextLoad
    && 0 < info.issuedAt <= w.clock
    && info.load.generation <= s.loadGeneration
    && info.load.revision <= s.revision
    && (info.load.revision == s.revision <==> w.lastEdit < info.issuedAt)
    && (info.load.revision == s.revision && !info.forced ==> !s.dirty)
    && (info.load.revision == s.revision && info.forced ==> w.lastEdit < info.askedAt <= info.issuedAt)
    && (info.load.generation == s.loadGeneration ==>
          && id + 1 == w.nextLoad
          && !s.saving
          && w.lastSaveStart < info.issuedAt
          && w.lastSaveEnd <= info.issuedAt)
    && (id + 1 == w.nextLoad && w.lastSaveStart < info.issuedAt ==> info.load.generation == s.loadGeneration)
  }

  /** Something has come after the load that makes its payload obsolete. */
  predicate Overtaken(w: World, id: LoadId, info: LoadInfo) {
    id + 1 < w.nextLoad || w.lastSaveStart >= info.issuedAt || w.lastEdit >= info.issuedAt
  }

  predicate Inv(w: World) {
    var s := w.section;
    && (s.dirty || s.forceReload || s.form == w.base)
    && (s.forceReload ==> w.lastEdit < w.lastAsk)
    && w.lastAsk <= w.clock
    && (w.arrival.Taken? ==> w.received == w.base)
    && (w.arrival.Dropped? ==> Overtaken(w, w.arrival.id, w.arrival.info))
    && w.lastEdit <= w.clock && w.lastSaveStart <= w.clock && w.lastSaveEnd <= w.clock
    && (s.saving <==> w.save.Some?)
    && (w.save.Some? ==>
          && w.save.value.revision <= s.revision
          && w.save.value.content == Submitted(w.submitted)
          && (w.save.value.revision == s.revision ==> w.submitted == s.form)
          && (w.save.value.revision != s.revision ==> s.dirty || s.forceReload))
    && (forall id | id in w.loads :: LoadOk(w, id, w.loads[id]))
  }

  /** A load may go out when the section is not being saved. */
  lemma IssueKeeps(w: World, force: bool)
    requires Inv(w) && Loads(w.section, force) && w.lastEdit < w.clock && w.lastSaveStart < w.clock
    requires force ==> w.lastEdit < w.lastAsk
    ensures Inv(Issue(w, BeginLoad(w.section, force), LoadOf(w.section), Forces(w.section, force)))
  {
    var next := Issue(w, BeginLoad(w.section, force), LoadOf(w.section), Forces(w.section, force));
    forall id | id in next.loads ensures LoadOk(next, id, next.loads[id]) {
      assert id in w.loads ==> LoadOk(w, id, w.loads[id]);
    }
  }

  lemma EndedKeepsLoad(w: World, d: Draft, reply: Option<Content>, id: LoadId)
    requires w.section.saving && id in w.loads && LoadOk(w, id, w.loads[id])
    ensures LoadOk(Ended(w, d, reply), id, w.loads[id])
  {}

  lemma EndedKeeps(w: World, reply: Option<Content>, ended: World)
    requires Inv(w) && w.save.Some? && ended == Ended(w, w.save.value, reply)
    ensures Inv(ended)
  {
    forall id | id in ended.loads ensures LoadOk(ended, id, ended.loads[id]) {
      EndedKeepsLoad(w, w.save.value, reply, id);
    }
  }

  lemma FinishSaveKeeps(w: World, reply: Option<Content>)
    requires Inv(w) && w.save.Some? && w.lastEdit < w.clock && w.lastSaveStart < w.clock
    ensures Inv(FinishSave(w, w.save.value, reply))
  {
    var ended := Ended(w, w.save.value, reply);
    EndedKeeps(w, reply, ended);
    if ended.section.forceReload {
      IssueKeeps(ended, true);
    }
  }

  lemma LoadedKeeps(w: World, id: LoadId, payload: Content)
    requires Inv(w)
    ensures Inv(Apply(w, Loaded(id, payload)))
  {
    var next := Apply(w, Loaded(id, payload));
    forall other | other in next.loads ensures LoadOk(next, other, next.loads[other]) {
      assert LoadOk(w, other, w.loads[other]);
    }
    if id in w.loads {
      assert LoadOk(w, id, w.loads[id]);
    }
  }

  lemma EditKeeps(w: World, content: Content)
    requires Inv(w)
    ensures Inv(Apply(w, Edit(content)))
  {
    var next := Apply(w, Edit(content));
    forall id | id in next.loads ensures LoadOk(next, id, next.loads[id]) {
      assert LoadOk(w, id, w.loads[id]);
    }
  }

  lemma SaveStartKeeps(w: World, batch: bool)
    requires Inv(w)
    ensures Inv(Apply(w, RequestSave(batch)))
  {
    var next := Apply(w, RequestSave(batch));
    forall id | id in next.loads ensures LoadOk(next, id, next.loads[id]) {
      assert LoadOk(w, id, w.loads[id]);
    }
  }

  lemma DiscardKeeps(w: World)
    requires Inv(w) && w.lastEdit < w.clock
    ensures Inv(Apply(w, TabDiscard))
  {
    var next := Apply(w, TabDiscard);
    forall id | id in next.loads ensures LoadOk(next, id, next.loads[id]) {
      assert LoadOk(w, id, w.loads[id]);
    }
  }

  lemma QuietKeeps(w: World, e: Event)
    requires Inv(w) && (e.LoadFailed? || e.Batch?)
    ensures Inv(Apply(w, e))
  {
    var next := Apply(w, e);
    forall id | id in next.loads ensures LoadOk(next, id, next.loads[id]) {
      assert LoadOk(w, id, w.loads[id]);
    }
  }

  lemma TickKeeps(w: World)
    requires Inv(w)
    ensures Inv(w.(clock := w.clock + 1))
  {
    var ticked := w.(clock := w.clock + 1);
    forall id | id in w.loads ensures LoadOk(ticked, id, w.loads[id]) {
      assert LoadOk(w, id, w.loads[id]);
    }
  }

  lemma AskKeeps(w: World, asked: World)
    requires Inv(w) && w.lastEdit < w.clock && (asked == w || asked == w.(lastAsk := w.clock))
    ensures Inv(asked)
  {
    forall id | id in w.loads ensures LoadOk(asked, id, w.loads[id]) {
      assert LoadOk(w, id, w.loads[id]);
    }
  }

  lemma OtherLoadKeeps(w: World, force: bool)
    requires Inv(w) && !Loads(w.section, force) && (force ==> w.lastEdit < w.lastAsk)
    ensures Inv(w.(section := BeginLoad(w.section, force)))
  {
    var next := w.(section := BeginLoad(w.section, force));
    forall id | id in next.loads ensures LoadOk(next, id, next.loads[id]) {
      assert LoadOk(w, id, w.loads[id]);
    }
  }

  lemma ApplyKeeps(w: World, e: Event, next: World)
    requires Inv(w) && w.lastEdit < w.clock && w.lastSaveStart < w.clock && next == Apply(w, e)
    ensures Inv(next)
  {
    match e
    case RequestLoad(force) =>
      var asked := if force then w.(lastAsk := w.clock) else w;
      AskKeeps(w, asked);
      if Loads(w.section, force) { IssueKeeps(asked, force); } else { OtherLoadKeeps(asked, force); }
    case Loaded(id, payload) => LoadedKeeps(w, id, payload);
    case SaveDone(reply) => if w.save.Some? { FinishSaveKeeps(w, reply); }
    case Edit(content) => EditKeeps(w, content);
    case RequestSave(batch) => SaveStartKeeps(w, batch);
    case TabDiscard => DiscardKeeps(w);
    case _ => QuietKeeps(w, e);
  }

  lemma StepKeeps(w: World, e: Event, next: World)
    requires Inv(w) && next == Step(w, e)
    ensures Inv(next)
  {
    TickKeeps(w);
    ApplyKeeps(w.(clock := w.clock + 1), e, next);
  }

  lemma {:induction false} RunInv(kind: Kind, form: Content, events: seq<Event>)
    ensures Inv(Run(Initial(kind, form), events))
  {
    if events != [] {
      RunInv(kind, form, events[..|events| - 1]);
      var before := Run(Initial(kind, form), events[..|events| - 1]);
      StepKeeps(before, events[|events| - 1], Run(Initial(kind, form), events));
    }
  }

  // ---- What holds in every run ----

  /** The form is dirty, or owes a forced reload, or shows exactly what the server confirmed last. */
  lemma CleanFormsAreConfirmed(kind: Kind, form: Content, events: seq<Event>)
    ensures var w := Run(Initial(kind, form), events);
            w.section.dirty || w.section.forceReload || w.section.form == w.base
  {
    RunInv(kind, form, events);
  }

  /**
   A payload that arrives is applied if and only if it is from the newest load and neither an edit nor a save
   has started since.
   */
  lemma AppliesIff(kind: Kind, form: Content, events: seq<Event>, id: LoadId)
    requires id in Run(Initial(kind, form), events).loads
    ensures var w := Run(Initial(kind, form), events);
            Applies(w.section, w.loads[id].load) <==> !Overtaken(w, id, w.loads[id])
  {
    RunInv(kind, form, events);
    var w := Run(Initial(kind, form), events);
    assert LoadOk(w, id, w.loads[id]);
  }

  /**
   A form that is neither dirty nor owes a reload shows exactly what the server answered last, unless that was the
   payload of a load that a newer load, a save or an edit had overtaken.
   */
  lemma CleanFormsShowTheLastAnswer(kind: Kind, form: Content, events: seq<Event>)
    ensures var w := Run(Initial(kind, form), events);
            || w.section.dirty || w.section.forceReload || w.section.form == w.received
            || (w.arrival.Dropped? && Overtaken(w, w.arrival.id, w.arrival.info) && w.section.form == w.base)
  {
    RunInv(kind, form, events);
  }

  /**
   Unsaved work leaves the form only by the user's own hand (another edit or a tab discard),
   by a save that stored this form but for its nameless rows, or by a load for which a forced reload or a tab discard
   was asked after the last edit.
   */
  lemma EditsSurvive(kind: Kind, form: Content, events: seq<Event>, e: Event)
    requires var w := Run(Initial(kind, form), events);
             var next := Step(w, e);
             w.section.dirty && (!next.section.dirty || next.section.form != w.section.form)
    ensures var w := Run(Initial(kind, form), events);
            || e.Edit?
            || e.TabDiscard?
            || (e.SaveDone? && e.reply.Some? && w.save.Some? && w.save.value.content == Submitted(w.section.form))
            || (e.Loaded? && e.id in w.loads && w.loads[e.id].forced
                && w.lastEdit < w.loads[e.id].askedAt <= w.loads[e.id].issuedAt)
  {
    RunInv(kind, form, events);
    var w := Run(Initial(kind, form), events);
    if e.Loaded? && e.id in w.loads {
      assert LoadOk(w, e.id, w.loads[e.id]);
    }
  }

  /**
   A load that is applied is the newest one; no edit was made after it went out, no save was
   under way then, and none has started since.
   */
  lemma AppliedLoadsAreCurrent(kind: Kind, form: Content, events: seq<Event>, id: LoadId)
    requires var w := Run(Initial(kind, form), events);
             id in w.loads && Applies(w.section, w.loads[id].load)
    ensures var w := Run(Initial(kind, form), events);
            var info := w.loads[id];
            && (forall other | other in w.loads :: other <= id)
            && w.lastEdit < info.issuedAt
            && w.lastSaveStart < info.issuedAt && w.lastSaveEnd <= info.issuedAt && w.save.None?
  {
    RunInv(kind, form, events);
    var w := Run(Initial(kind, form), events);
    assert forall other | other in w.loads :: LoadOk(w, other, w.loads[other]);
  }

  /**
   A save whose answer is taken over stored what the form still shows, but for its nameless rows; a newer edit
   keeps its dirty mark.
   */
  lemma SavesKeepNewerEdits(kind: Kind, form: Content, events: seq<Event>, reply: Content)
    requires Run(Initial(kind, form), events).save.Some?
    ensures var w := Run(Initial(kind, form), events);
            var next := Step(w, SaveDone(Some(reply)));
            && !next.section.saving
            && if w.section.revision == w.save.value.revision
               then w.save.value.content == Submitted(w.section.form) && !next.section.dirty
                    && next.section.form == next.base
               else next.section.form == w.section.form && next.section.dirty == w.section.dirty
                    && (w.section.dirty || w.section.forceReload)
  {
    RunInv(kind, form, events);
  }

  /**
   In every run a save of the topics submits exactly the named rows of the form that it was made of, in order, each
   with its own trimmed name, its own token and its own handles; while nothing is edited that is the form shown.
   */
  lemma SavesSendNamedRows(kind: Kind, form: Content, events: seq<Event>)
    requires Run(Initial(kind, form), events).save.Some?
    ensures var w := Run(Initial(kind, form), events);
            && (if w.submitted.Rows? then
                  && w.save.value.content.Rows?
                  && exists at :: Picks(at, w.submitted.rows, w.save.value.content.rows)
                else w.save.value.content == w.submitted)
            && (w.save.value.revision == w.section.revision ==> w.submitted == w.section.form)
  {
    RunInv(kind, form, events);
    if Run(Initial(kind, form), events).submitted.Rows? {
      SubmittedRowsAre(Run(Initial(kind, form), events).submitted.rows);
    }
  }

  /** A save whose answer is taken over stored all that the form shows if and only if every row has a name. */
  lemma AdoptedSaveStoresAllIff(kind: Kind, form: Content, events: seq<Event>)
    requires var w := Run(Initial(kind, form), events); w.save.Some? && w.save.value.revision == w.section.revision
    ensures var w := Run(Initial(kind, form), events);
            w.save.value.content == Whole(w.section.form) <==> NothingNameless(w.section.form)
  {
    RunInv(kind, form, events);
    SubmitsWholeIff(Run(Initial(kind, form), events).section.form);
  }

  /**
   When the server answers with the topics it was sent, the clean form shows all rows there were before if and
   only if every row had a name.
   */
  lemma AdoptedSaveShowsAllIff(form: Content, events: seq<Event>, reply: seq<Row>)
    requires var w := Run(Initial(Topics, form), events);
             && w.save.Some? && w.save.value.revision == w.section.revision && w.section.form.Rows?
             && w.save.value.content.Rows? && NamesOf(reply) == NamesOf(w.save.value.content.rows)
    ensures var w := Run(Initial(Topics, form), events);
            var next := Step(w, SaveDone(Some(Rows(reply)))).section;
            && !next.dirty && next.form == Rows(reply)
            && (NamesOf(reply) == NamesOf(Shown(w.section.form.rows)) <==> NothingNameless(w.section.form))
  {
    RunInv(Topics, form, events);
    KindStays(Topics, form, events);
    ReplyShowsAllIff(Run(Initial(Topics, form), events).section.form.rows, reply);
  }

  lemma {:induction false} KindStays(kind: Kind, form: Content, events: seq<Event>)
    ensures Run(Initial(kind, form), events).kind == kind
  {
    if events != [] {
      KindStays(kind, form, events[..|events| - 1]);
    }
  }

  /** A topic that was added and given a token but no name is gone after the save, and the form is clean. */
  lemma NamelessTopicIsLost(token: string, handles: string)
    ensures var events := [Edit(Rows([Row("", token, handles)])), RequestSave(false), SaveDone(Some(Rows([])))];
            var sent := Run(Initial(Topics, Rows([])), events[..2]);
            var done := Run(Initial(Topics, Rows([])), events);
            && sent.save == Some(Draft(1, Rows([])))
            && !done.section.dirty && done.section.form == Rows([])
  {
    var events := [Edit(Rows([Row("", token, handles)])), RequestSave(false), SaveDone(Some(Rows([])))];
    assert events[..3] == events && events[..2][..1] == events[..1] && events[..1][..0] == [];
    var start := Initial(Topics, Rows([]));
    var row := Row("", token, handles);
    assert Run(start, events[..1]) == Step(start, events[0]);
    assert [row][..0] == [] && CollectRows([row], true) == [];
    assert Run(start, events[..2]) == Step(Step(start, events[0]), events[1]);
  }

  /** A forced load that nothing comes in between of is applied: the form shows its payload and owes nothing. */
  lemma UndisturbedLoadApplies(kind: Kind, form: Content, events: seq<Event>, payload: Content)
    requires !Run(Initial(kind, form), events).section.saving
    ensures
      var w := Run(Initial(kind, form), events);
      var asked := Step(w, RequestLoad(true));
      var shown := Step(asked, Loaded(w.nextLoad, payload));
      && shown.section.form == payload && shown.base == payload
      && !shown.section.dirty && !shown.section.forceReload
  {}

  /** A save that nothing comes in between of cleans the form; a reload that was owed goes out with it. */
  lemma UndisturbedSaveCleans(kind: Kind, form: Content, events: seq<Event>, reply: Content)
    requires !Run(Initial(kind, form), events).section.saving && !Run(Initial(kind, form), events).batchActive
    ensures
      var w := Run(Initial(kind, form), events);
      var sent := Step(w, RequestSave(false));
      var done := Step(sent, SaveDone(Some(reply)));
      && sent.save == Some(Draft(w.section.revision, Submitted(w.section.form)))
      && !done.section.dirty && !done.section.saving && done.section.form == done.base
      && (w.section.forceReload ==> w.nextLoad in done.loads && done.loads[w.nextLoad].forced)
  {}

  /** A tab discard owes a reload to a section that is not being saved: the next load goes out and is shown. */
  lemma DiscardIsReloaded(kind: Kind, form: Content, events: seq<Event>, payload: Content)
    requires !Run(Initial(kind, form), events).section.saving
    ensures
      var w := Step(Run(Initial(kind, form), events), TabDiscard);
      var shown := Step(Step(w, RequestLoad(false)), Loaded(w.nextLoad, payload));
      && !w.section.dirty
      && shown.section.form == payload && !shown.section.dirty && !shown.section.forceReload
  {}

  /** A load that is not forced asks for nothing while the section has unsaved work and owes no reload. */
  lemma PlainLoadSparesEdits(kind: Kind, form: Content, events: seq<Event>)
    requires var s := Run(Initial(kind, form), events).section; s.dirty && !s.forceReload
    ensures var w := Run(Initial(kind, form), events);
            var next := Step(w, RequestLoad(false));
            next.section == w.section && next.loads == w.loads
  {}

  /** After an edit the section owes no reload, whatever was asked for before it. */
  lemma EditCancelsReload(kind: Kind, form: Content, events: seq<Event>, content: Content)
    ensures var s := Step(Run(Initial(kind, form), events), Edit(content)).section;
            s.form == content && s.dirty && !s.forceReload
  {}

  /** A save starts exactly when none is under way and no batch is, unless it is the batch's own. */
  lemma OneSaveAtATime(kind: Kind, form: Content, events: seq<Event>, batch: bool)
    ensures var w := Run(Initial(kind, form), events);
            var next := Step(w, RequestSave(batch));
            if w.save.Some? || (w.batchActive && !batch) then next == w.(clock := w.clock + 1)
            else next.save.Some? && next.submitted == w.section.form && next.save.value.revision == w.section.revision
  {
    RunInv(kind, form, events);
  }

  /** A failed save leaves the form and its mark as they are, and the section can be saved again. */
  lemma FailedSaveKeepsForm(kind: Kind, form: Content, events: seq<Event>)
    requires Run(Initial(kind, form), events).save.Some?
    ensures var w := Run(Initial(kind, form), events);
            var next := Step(w, SaveDone(None));
            && next.section.form == w.section.form && next.section.dirty == w.section.dirty
            && next.save.None? && !next.section.saving
            && (w.section.forceReload <==> w.nextLoad in next.loads && next.loads[w.nextLoad].forced)
  {
    RunInv(kind, form, events);
    var w := Run(Initial(kind, form), events);
    assert w.nextLoad in w.loads ==> LoadOk(w, w.nextLoad, w.loads[w.nextLoad]);
  }

  /** A forced reload that is asked for during a save goes out when the save is over, however that ends. */
  lemma OwedReloadGoesOut(kind: Kind, form: Content, events: seq<Event>, reply: Option<Content>)
    requires Run(Initial(kind, form), events).save.Some?
    ensures var w := Run(Initial(kind, form), events);
            var asked := Step(w, RequestLoad(true));
            var next := Step(asked, SaveDone(reply));
            && asked.loads == w.loads && asked.section.form == w.section.form
            && w.nextLoad in next.loads && next.loads[w.nextLoad].forced
            && next.loads[w.nextLoad].load.generation == next.section.loadGeneration
  {
    RunInv(kind, form, events);
  }
}
