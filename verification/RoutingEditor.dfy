/**
 The routing editor of static/app-routing-topics.js and
 static/app-routing-channels.js: a set of dirty sections, edit revisions, load
 generations, a set of sections being saved and a set of sections that owe a
 forced reload.

 `Section` is what the page holds for one section; the functions on it say what
 each handler does between two suspension points, and class `RoutingEditor` is
 the code over the collections that both sections share.
 */
module RoutingEditor {
  import opened Wrappers
  import opened Text

  /** A row of the topics table, as typed. */
  datatype Row = Row(name: string, token: string, handles: string)

  /** What a section shows, submits or is sent: the texts of the channel fields, or the rows of the topics. */
  datatype Content = Fields(texts: seq<string>) | Rows(rows: seq<Row>)

  datatype Kind = Channels | Topics

  predicate Fits(k: Kind, content: Content) {
    k.Topics? <==> content.Rows?
  }

  function Cleaned(row: Row): Row {
    row.(name := Trim(row.name, JsSpace))
  }

  predicate Named(row: Row) {
    Cleaned(row).name != ""
  }

  /** The rows that are collected; a save skips those without a name. */
  function CollectRows(rows: seq<Row>, skipEmpty: bool): seq<Row> {
    if rows == [] then []
    else
      var row := rows[|rows| - 1];
      CollectRows(rows[..|rows| - 1], skipEmpty) + if skipEmpty && !Named(row) then [] else [Cleaned(row)]
  }

  predicate AllNamed(rows: seq<Row>) {
    forall row | row in rows :: Named(row)
  }

  /** What a save of this form submits. */
  function Submitted(form: Content): Content {
    if form.Rows? then Rows(CollectRows(form.rows, true)) else form
  }

  /** All that the form shows: each row with its name trimmed. */
  function Whole(form: Content): Content {
    if form.Rows? then Rows(Shown(form.rows)) else form
  }

  function Shown(rows: seq<Row>): seq<Row> {
    seq(|rows|, i requires 0 <= i < |rows| => Row(Trim(rows[i].name, JsSpace), rows[i].token, rows[i].handles))
  }

  /** Every row of the form has a name that is not blank. */
  predicate NothingNameless(form: Content) {
    form.Rows? ==> forall i | 0 <= i < |form.rows| :: Trim(form.rows[i].name, JsSpace) != ""
  }

  datatype Section = Section(
    dirty: bool, revision: nat, loadGeneration: nat, saving: bool, forceReload: bool, form: Content)

  /** What a load that goes out remembers. */
  datatype Load = Load(generation: nat, revision: nat)

  datatype Draft = Draft(revision: nat, content: Content)

  function MarkDirty(s: Section): Section {
    s.(dirty := true, forceReload := false, revision := s.revision + 1)
  }

  function MarkClean(s: Section): Section {
    s.(dirty := false)
  }

  /** The user changes the form to this content. */
  function EditForm(s: Section, content: Content): Section {
    MarkDirty(s.(form := content))
  }

  predicate Forces(s: Section, force: bool) {
    force || s.forceReload
  }

  predicate Loads(s: Section, force: bool) {
    !s.saving && (Forces(s, force) || !s.dirty)
  }

  function BeginLoad(s: Section, force: bool): Section {
    if s.saving then s.(forceReload := Forces(s, force))
    else if Loads(s, force) then s.(loadGeneration := s.loadGeneration + 1)
    else s
  }

  function LoadOf(s: Section): Load {
    Load(s.loadGeneration + 1, s.revision)
  }

  predicate Applies(s: Section, l: Load) {
    s.loadGeneration == l.generation && s.revision == l.revision
  }

  function ApplyLoad(s: Section, l: Load, payload: Content): Section {
    if Applies(s, l) then MarkClean(s.(form := payload, forceReload := false)) else s
  }

  predicate Saves(s: Section, batchActive: bool, batch: bool) {
    !s.saving && (!batchActive || batch)
  }

  function BeginSave(s: Section): Section {
    s.(saving := true, loadGeneration := s.loadGeneration + 1)
  }

  /** The save came back; the topics section shows the server's reply, the channels section keeps its form. */
  function SaveSucceeded(s: Section, kind: Kind, d: Draft, reply: Content): Section {
    if s.revision == d.revision then MarkClean(if kind.Topics? then s.(form := reply) else s) else s
  }

  /** The finally block; a section that owes a forced reload starts it here. */
  function EndSave(s: Section): Section {
    var idle := s.(saving := false);
    if idle.forceReload then BeginLoad(idle, true) else idle
  }

  function DiscardTab(s: Section): Section {
    s.(dirty := false, forceReload := true)
  }

  // ---- What a save leaves out ----

  function NamesOf(rows: seq<Row>): seq<string> {
    seq(|rows|, i requires 0 <= i < |rows| => rows[i].name)
  }

  lemma {:induction false} CollectedAll(rows: seq<Row>)
    ensures CollectRows(rows, false) == Shown(rows)
  {
    if rows != [] {
      CollectedAll(rows[..|rows| - 1]);
    }
  }

  /**
   `at` lists, in order, exactly the positions of the rows whose trimmed name is not empty, and what is collected is
   what those rows show.
   */
  predicate Picks(at: seq<nat>, rows: seq<Row>, collected: seq<Row>) {
    && |at| == |collected|
    && (forall j | 0 <= j < |at| :: at[j] < |rows|)
    && (forall j, k | 0 <= j < k < |at| :: at[j] < at[k])
    && (forall i | 0 <= i < |rows| :: i in at <==> Trim(rows[i].name, JsSpace) != "")
    && (forall j | 0 <= j < |at| ::
          collected[j] == Row(Trim(rows[at[j]].name, JsSpace), rows[at[j]].token, rows[at[j]].handles))
  }

  lemma PicksSnoc(at: seq<nat>, front: seq<Row>, collected: seq<Row>, last: Row, rows: seq<Row>)
    requires Picks(at, front, collected) && rows == front + [last]
    ensures Trim(last.name, JsSpace) == "" ==> Picks(at, rows, collected)
    ensures Trim(last.name, JsSpace) != "" ==>
              Picks(at + [|front|], rows, collected + [Row(Trim(last.name, JsSpace), last.token, last.handles)])
  {
    assert forall i | 0 <= i < |front| :: rows[i] == front[i];
    assert rows[|front|] == last;
    assert |front| !in at;
  }

  lemma CollectSnoc(front: seq<Row>, last: Row, rows: seq<Row>)
    requires rows == front + [last]
    ensures CollectRows(rows, true)
         == if Trim(last.name, JsSpace) == "" then CollectRows(front, true)
            else CollectRows(front, true) + [Row(Trim(last.name, JsSpace), last.token, last.handles)]
  {
    assert rows[..|rows| - 1] == front;
    assert CollectRows(front, true) + [] == CollectRows(front, true);
  }

  lemma {:induction false} PickedPositions(rows: seq<Row>) returns (at: seq<nat>)
    ensures Picks(at, rows, CollectRows(rows, true))
  {
    if rows == [] {
      at := [];
    } else {
      var front, last := rows[..|rows| - 1], rows[|rows| - 1];
      at := PickedPositions(front);
      PicksSnoc(at, front, CollectRows(front, true), last, rows);
      CollectSnoc(front, last, rows);
      if Trim(last.name, JsSpace) != "" {
        at := at + [|front|];
      }
    }
  }

  /** What a save submits, position by position. */
  lemma SubmittedRowsAre(rows: seq<Row>)
    ensures exists at :: Picks(at, rows, CollectRows(rows, true))
  {
    var at := PickedPositions(rows);
  }

  lemma {:induction false} CollectedLength(rows: seq<Row>)
    ensures |CollectRows(rows, false)| == |rows| && |CollectRows(rows, true)| <= |rows|
    ensures |CollectRows(rows, true)| == |rows| <==> AllNamed(rows)
    ensures AllNamed(rows) ==> CollectRows(rows, true) == CollectRows(rows, false)
  {
    if rows != [] {
      var init, last := rows[..|rows| - 1], rows[|rows| - 1];
      CollectedLength(init);
      assert rows == init + [last];
      assert AllNamed(rows) <==> AllNamed(init) && Named(last);
    }
  }

  lemma AllNamedIff(rows: seq<Row>)
    ensures AllNamed(rows) <==> forall i | 0 <= i < |rows| :: Trim(rows[i].name, JsSpace) != ""
  {
    if AllNamed(rows) {
      forall i | 0 <= i < |rows| ensures Trim(rows[i].name, JsSpace) != "" {
        assert rows[i] in rows && Named(rows[i]);
      }
    }
  }

  /** A save submits all that the form shows if and only if every row has a name. */
  lemma SubmitsWholeIff(form: Content)
    ensures Submitted(form) == Whole(form)
            <==> NothingNameless(form)
  {
    if form.Rows? {
      CollectedAll(form.rows);
      AllNamedIff(form.rows);
      CollectedLength(form.rows);
    }
  }

  /** A reply that lists the submitted topics shows all rows of the form if and only if every row has a name. */
  lemma ReplyShowsAllIff(rows: seq<Row>, reply: seq<Row>)
    requires NamesOf(reply) == NamesOf(CollectRows(rows, true))
    ensures NamesOf(reply) == NamesOf(Shown(rows)) <==> NothingNameless(Rows(rows))
  {
    CollectedLength(rows);
    CollectedAll(rows);
    AllNamedIff(rows);
    assert |NamesOf(reply)| == |CollectRows(rows, true)| && |NamesOf(Shown(rows))| == |rows|;
  }

  class RoutingEditor {
    var dirtySections: set<Kind>
    var editRevisions: map<Kind, nat>
    var loadGenerations: map<Kind, nat>
    var savingSections: set<Kind>
    var forceReloadSections: set<Kind>
    var forms: map<Kind, Content>
    var batchActive: bool
    var batchGeneration: nat

    predicate Valid()
      reads this
    {
      forall k: Kind :: k in editRevisions && k in loadGenerations && k in forms && Fits(k, forms[k])
    }

    function View(k: Kind): Section
      requires Valid()
      reads this
    {
      Section(k in dirtySections, editRevisions[k], loadGenerations[k],
              k in savingSections, k in forceReloadSections, forms[k])
    }

    constructor (channels: Content, topics: Content)
      requires Fits(Channels, channels) && Fits(Topics, topics)
      ensures Valid() && !batchActive
      ensures forall k: Kind :: View(k) == Section(false, 0, 0, false, false, if k.Channels? then channels else topics)
    {
      dirtySections, savingSections, forceReloadSections := {}, {}, {};
      editRevisions := map[Channels := 0, Topics := 0];
      loadGenerations := map[Channels := 0, Topics := 0];
      forms := map[Channels := channels, Topics := topics];
      batchActive, batchGeneration := false, 0;
      new;
      forall k: Kind ensures k in editRevisions && k in loadGenerations && k in forms && Fits(k, forms[k]) {
        match k case Channels => case Topics =>
      }
    }

    method MarkRoutingSectionDirty(k: Kind, dirty: bool)
      requires Valid()
      modifies this`dirtySections, this`forceReloadSections, this`editRevisions
      ensures Valid()
      ensures View(k) == if dirty then MarkDirty(old(View(k))) else MarkClean(old(View(k)))
      ensures forall other | other != k :: View(other) == old(View(other))
    {
      if dirty {
        dirtySections := dirtySections + {k};
        forceReloadSections := forceReloadSections - {k};
        editRevisions := editRevisions[k := editRevisions[k] + 1];
      } else {
        dirtySections := dirtySections - {k};
      }
    }

    method Edit(k: Kind, content: Content)
      requires Valid() && Fits(k, content)
      modifies this
      ensures Valid() && batchActive == old(batchActive)
      ensures View(k) == EditForm(old(View(k)), content)
      ensures forall other | other != k :: View(other) == old(View(other))
    {
      forms := forms[k := content];
      MarkRoutingSectionDirty(k, true);
    }

    /** loadNtfyTopics or loadRouting up to its request; nothing goes out when it returns None. */
    method StartLoad(k: Kind, force: bool) returns (issued: Option<Load>)
      requires Valid()
      modifies this
      ensures Valid() && batchActive == old(batchActive)
      ensures issued == if Loads(old(View(k)), force) then Some(LoadOf(old(View(k)))) else None
      ensures View(k) == BeginLoad(old(View(k)), force)
      ensures forall other | other != k :: View(other) == old(View(other))
    {
      var forced := force || k in forceReloadSections;
      if k in savingSections {
        if forced {
          forceReloadSections := forceReloadSections + {k};
        }
        return None;
      }
      if !forced && k in dirtySections {
        return None;
      }
      var requestedRevision := editRevisions[k];
      var loadGeneration := loadGenerations[k] + 1;
      loadGenerations := loadGenerations[k := loadGeneration];
      return Some(Load(loadGeneration, requestedRevision));
    }

    method OnLoaded(k: Kind, l: Load, payload: Content)
      requires Valid() && Fits(k, payload)
      modifies this
      ensures Valid() && batchActive == old(batchActive)
      ensures View(k) == ApplyLoad(old(View(k)), l, payload)
      ensures forall other | other != k :: View(other) == old(View(other))
    {
      if loadGenerations[k] != l.generation {
        return;
      }
      if editRevisions[k] != l.revision {
        return;
      }
      forms := forms[k := payload];
      forceReloadSections := forceReloadSections - {k};
      MarkRoutingSectionDirty(k, false);
    }

    method CollectNtfyTopicsDraft(skipEmpty: bool) returns (topics: seq<Row>)
      requires Valid()
      ensures topics == CollectRows(forms[Topics].rows, skipEmpty)
    {
      var rows := forms[Topics].rows;
      topics := [];
      for i := 0 to |rows|
        invariant topics == CollectRows(rows[..i], skipEmpty)
      {
        assert rows[..i + 1][..i] == rows[..i];
        var name := Trim(rows[i].name, JsSpace);
        if !(skipEmpty && name == "") {
          topics := topics + [Row(name, rows[i].token, rows[i].handles)];
        }
      }
      assert rows[..|rows|] == rows;
    }

    /** saveNtfyTopics or saveRouting up to its request; `captured` is what a batch collected earlier. */
    method StartSave(k: Kind, batch: bool, captured: Option<Draft>) returns (sent: Option<Draft>)
      requires Valid()
      modifies this
      ensures Valid() && batchActive == old(batchActive)
      ensures sent == if !Saves(old(View(k)), old(batchActive), batch) then None
                      else if captured.Some? then captured
                      else Some(Draft(old(View(k)).revision, Submitted(old(View(k)).form)))
      ensures View(k) == if sent.Some? then BeginSave(old(View(k))) else old(View(k))
      ensures forall other | other != k :: View(other) == old(View(other))
    {
      if k in savingSections || (batchActive && !batch) {
        return None;
      }
      savingSections := savingSections + {k};
      loadGenerations := loadGenerations[k := loadGenerations[k] + 1];
      if captured.Some? {
        return captured;
      }
      if k.Topics? {
        var topics := CollectNtfyTopicsDraft(true);
        return Some(Draft(editRevisions[k], Rows(topics)));
      }
      return Some(Draft(editRevisions[k], forms[k]));
    }

    /** The rest of a save: `reply` is the server's answer, None after a failure. */
    method OnSaved(k: Kind, d: Draft, reply: Option<Content>) returns (reload: Option<Load>)
      requires Valid() && (reply.Some? ==> Fits(k, reply.value))
      modifies this
      ensures Valid() && batchActive == old(batchActive)
      ensures var answered := if reply.Some? then SaveSucceeded(old(View(k)), k, d, reply.value) else old(View(k));
              && View(k) == EndSave(answered)
              && reload == if answered.forceReload then Some(LoadOf(answered)) else None
      ensures forall other | other != k :: View(other) == old(View(other))
    {
      if reply.Some? {
        AdoptReply(k, d, reply.value);
      }
      savingSections := savingSections - {k};
      reload := None;
      if k in forceReloadSections {
        reload := StartLoad(k, true);
      }
    }

    method AdoptReply(k: Kind, d: Draft, reply: Content)
      requires Valid() && Fits(k, reply)
      modifies this
      ensures Valid() && batchActive == old(batchActive)
      ensures View(k) == SaveSucceeded(old(View(k)), k, d, reply)
      ensures forall other | other != k :: View(other) == old(View(other))
    {
      if editRevisions[k] == d.revision {
        if k.Topics? {
          forms := forms[k := reply];
        }
        MarkRoutingSectionDirty(k, false);
      }
    }

    method OnTabDiscard()
      requires Valid()
      modifies this
      ensures Valid() && batchActive == old(batchActive)
      ensures forall k: Kind :: View(k) == DiscardTab(old(View(k)))
    {
      batchGeneration := batchGeneration + 1;
      dirtySections := {};
      forceReloadSections := forceReloadSections + {Channels};
      forceReloadSections := forceReloadSections + {Topics};
      forall k: Kind ensures k in forceReloadSections {
        match k case Channels => case Topics =>
      }
    }
  }
}
