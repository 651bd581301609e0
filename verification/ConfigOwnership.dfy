/**
 Who owns the configuration: checks against End Close, which answer 200, 304 or 404 or fail, interleaved
 with edits on the server, local applies, and restarts. A check reads the database when it starts, is
 answered some time later, and writes what it learned in one go.
 */
module ConfigOwnership {
  import opened Prelude
  import opened ConfigStore

  type Document = string

  const REMOTE_ACTOR := "endclose"

  /** How a document is serialised and tagged, the environment it names, and which texts the schema accepts. */
  datatype Env = Env(
    yaml: Document -> Text,
    etag: Document -> Option<string>,
    environment: Document -> Option<string>,
    parse: Parser)

  /** An entity tag belongs to one document (section 8.8.3 of RFC 9110). */
  ghost predicate TagsIdentify(env: Env) {
    forall d, e | env.etag(d).Some? && env.etag(e) == env.etag(d) :: d == e
  }

  datatype Reply = NotFound | NotModified(d: Document) | Served(d: Document) | Unusable

  /** `seen` is history: the documents the server has held since the check started. */
  datatype Check = Check(stored: Option<Text>, sent: Option<string>, ownedAtStart: bool, seen: set<Document>, reply: Option<Reply>)

  /** One process; `managed` is what locks the local editor. */
  datatype Process = Process(enabled: bool, managed: bool, check: Option<Check>)

  /** `served` is history: every document a check has stored. */
  datatype Sys = Sys(db: Db, server: Option<Document>, process: Process, served: set<Document>)

  datatype Event =
    | ServerEdit(doc: Option<Document>)
    | LocalApply(text: Text, secretsSet: bool)
    | StartCheck
    | Respond(arrives: bool)
    | Finish(secretsSet: bool, storeUp: bool)
    | Restart(enabled: bool)

  datatype Answer = Managed(text: Text) | Unmanaged | Failed

  // ---- one check ----

  /** The hash key names the active text: End Close owned it when the database was last written. */
  predicate WasManaged(env: Env, db: Db) {
    Active(env.parse, db).Some? && db.hash == Active(env.parse, db)
  }

  function Started(env: Env, s: Sys): Check {
    var conditional := WasManaged(env, s.db);
    Check(
      Active(env.parse, s.db),
      if conditional then s.db.etag else None,
      s.process.managed,
      if s.server.Some? then {s.server.value} else {},
      None)
  }

  /** What the server answers: 404, 304 to a matching tag, or the document. */
  function ServerReply(env: Env, server: Option<Document>, sent: Option<string>): Reply {
    match server
    case None => NotFound
    case Some(d) => if sent.Some? && env.etag(d) == sent then NotModified(d) else Served(d)
  }

  /** The database once a served document is saved with its tag. */
  function Kept(env: Env, db: Db, d: Document): Db
    requires env.parse(env.yaml(d)).Some?
  {
    var saved := Saved(db, env.yaml(d), env.parse(env.yaml(d)).value, REMOTE_ACTOR);
    saved.(etag := env.etag(d), hash := if env.etag(d).Some? then Some(env.yaml(d)) else None,
           environment := env.environment(d))
  }

  function Forgotten(db: Db): Db {
    db.(etag := None, hash := None, environment := None)
  }

  /** What an answered check answers. */
  function AnswerOf(env: Env, check: Check, secretsSet: bool, storeUp: bool): Answer
    requires check.reply.Some?
  {
    match check.reply.value
    case NotFound => if storeUp then Unmanaged else Failed
    case NotModified(_) => if storeUp && check.stored.Some? then Managed(check.stored.value) else Failed
    case Served(d) =>
      if storeUp && secretsSet && env.parse(env.yaml(d)).Some? then Managed(env.yaml(d)) else Failed
    case Unusable => Failed
  }

  /** What it writes. */
  function DbAfter(env: Env, db: Db, check: Check, secretsSet: bool, storeUp: bool): Db
    requires check.reply.Some?
  {
    match AnswerOf(env, check, secretsSet, storeUp)
    case Failed => db
    case Unmanaged => Forgotten(db)
    case Managed(_) => if check.reply.value.Served? then Kept(env, db, check.reply.value.d) else db
  }

  /** `record`: a failed check leaves ownership as it was. */
  function ManagedAfter(managed: bool, answer: Answer): bool {
    match answer
    case Managed(_) => true
    case Unmanaged => false
    case Failed => managed
  }

  // ---- steps ----

  predicate Enabled(s: Sys, e: Event) {
    match e
    case StartCheck => s.process.enabled && s.process.check.None?
    case Respond(_) => s.process.check.Some? && s.process.check.value.reply.None?
    case Finish(_, _) => s.process.check.Some? && s.process.check.value.reply.Some?
    case _ => true
  }

  function WithSeen(p: Process, doc: Option<Document>): Process {
    if p.check.Some? && doc.Some? then
      p.(check := Some(p.check.value.(seen := p.check.value.seen + {doc.value})))
    else p
  }

  /** Refused while End Close owns the document. */
  function Applied(env: Env, s: Sys, text: Text, secretsSet: bool): Sys {
    if s.process.managed || !secretsSet || env.parse(text).None? then s
    else s.(db := Saved(s.db, text, env.parse(text).value, "local"))
  }

  function Finished(env: Env, s: Sys, secretsSet: bool, storeUp: bool): Sys
    requires s.process.check.Some? && s.process.check.value.reply.Some?
  {
    var check := s.process.check.value;
    var answer := AnswerOf(env, check, secretsSet, storeUp);
    Sys(
      DbAfter(env, s.db, check, secretsSet, storeUp),
      s.server,
      Process(s.process.enabled, ManagedAfter(s.process.managed, answer), None),
      if answer.Managed? && check.reply.value.Served? then s.served + {check.reply.value.d} else s.served)
  }

  function Do(env: Env, s: Sys, e: Event): Sys
    requires Enabled(s, e)
  {
    match e
    case ServerEdit(doc) => s.(server := doc, process := WithSeen(s.process, doc))
    case LocalApply(text, secretsSet) => Applied(env, s, text, secretsSet)
    case StartCheck => s.(process := s.process.(check := Some(Started(env, s))))
    case Respond(arrives) =>
      var check := s.process.check.value;
      var reply := if arrives then ServerReply(env, s.server, check.sent) else Unusable;
      s.(process := s.process.(check := Some(check.(reply := Some(reply)))))
    case Finish(secretsSet, storeUp) => Finished(env, s, secretsSet, storeUp)
    case Restart(enabled) => s.(process := Process(enabled, enabled && WasManaged(env, s.db), None))
  }

  ghost predicate Valid(env: Env, s: Sys, events: seq<Event>)
    decreases |events|
  {
    events == [] || (Enabled(s, events[0]) && Valid(env, Do(env, s, events[0]), events[1..]))
  }

  ghost function End(env: Env, s: Sys, events: seq<Event>): Sys
    requires Valid(env, s, events)
    decreases |events|
  {
    if events == [] then s else End(env, Do(env, s, events[0]), events[1..])
  }

  const EMPTY := Db([], {}, {}, None, None, None)

  /** A new volume; End Close may or may not hold a document. */
  predicate Init(s: Sys) {
    s.db == EMPTY && s.process == Process(false, false, None) && s.served == {}
  }

  // ---- what a step comes to ----

  predicate SameDb(s: Sys, s': Sys) {
    s'.db == s.db && s'.server == s.server
  }

  /** The check is over, and ownership is this. */
  predicate IsOver(s: Sys, s': Sys, managed: bool) {
    s'.process == Process(s.process.enabled, managed, None)
  }

  /** A served document that can be applied: the store takes it, its secrets are set, and the schema accepts it. */
  predicate CanApply(env: Env, d: Document, secretsSet: bool, storeUp: bool) {
    storeUp && secretsSet && env.parse(env.yaml(d)).Some?
  }

  /**
   How a check ends. A 404 gives up ownership and what was remembered of it, a 304 takes or keeps ownership and changes
   nothing else, a 200 that can be applied makes the document active and remembers its tag; anything else, or a store that
   fails, changes nothing.
   */
  lemma CheckDecides(env: Env, s: Sys, secretsSet: bool, storeUp: bool)
    requires Enabled(s, Finish(secretsSet, storeUp)) && Materialised(env.parse, s.db)
    ensures var s', check := Do(env, s, Finish(secretsSet, storeUp)), s.process.check.value;
            match check.reply.value
            case NotFound =>
              if storeUp then
                && IsOver(s, s', false) && s'.server == s.server
                && s'.db == s.db.(etag := None, hash := None, environment := None)
              else SameDb(s, s') && IsOver(s, s', s.process.managed)
            case NotModified(_) =>
              SameDb(s, s') && IsOver(s, s', if storeUp && check.stored.Some? then true else s.process.managed)
            case Served(d) =>
              if CanApply(env, d, secretsSet, storeUp) then
                && IsOver(s, s', true) && s'.server == s.server
                && Active(env.parse, s'.db) == Some(env.yaml(d)) && s.db.versions <= s'.db.versions
                && s'.db.etag == env.etag(d) && s'.db.environment == env.environment(d)
                && s'.db.hash == (if env.etag(d).Some? then Some(env.yaml(d)) else None)
              else SameDb(s, s') && IsOver(s, s', s.process.managed)
            case Unusable => SameDb(s, s') && IsOver(s, s', s.process.managed)
  {
    var reply := s.process.check.value.reply.value;
    if reply.Served? && CanApply(env, reply.d, secretsSet, storeUp) {
      SaveActivates(env.parse, s.db, env.yaml(reply.d), REMOTE_ACTOR);
    }
  }

  /** A local text is applied exactly if the editor is not locked, its secrets are set and the schema accepts it. */
  lemma LocalApplyIff(env: Env, s: Sys, text: Text, secretsSet: bool)
    requires Materialised(env.parse, s.db)
    ensures var s' := Do(env, s, LocalApply(text, secretsSet));
            && s'.process == s.process && s'.server == s.server && s'.db.etag == s.db.etag && s'.db.hash == s.db.hash
            && (!s.process.managed && secretsSet && env.parse(text).Some? ==> Active(env.parse, s'.db) == Some(text))
            && (s.process.managed || !secretsSet || env.parse(text).None? ==> s'.db == s.db)
  {
    if env.parse(text).Some? {
      SaveActivates(env.parse, s.db, text, "local");
    }
  }

  /** A check asks conditionally exactly if the active text is the one that the remembered tag was served with. */
  lemma AsksConditionallyIff(env: Env, s: Sys)
    requires Enabled(s, StartCheck)
    ensures var check := Do(env, s, StartCheck).process.check;
            && check.Some? && check.value.reply.None? && check.value.stored == Active(env.parse, s.db)
            && (check.value.sent.Some? <==>
                  s.db.etag.Some? && Active(env.parse, s.db).Some? && s.db.hash == Active(env.parse, s.db))
            && (check.value.sent.Some? ==> check.value.sent == s.db.etag)
  {
  }

  /** Only an edit on the server changes what it holds, and it holds then what the edit says. */
  lemma ServerHolds(env: Env, s: Sys, e: Event)
    requires Enabled(s, e)
    ensures Do(env, s, e).server == if e.ServerEdit? then e.doc else s.server
    ensures e.ServerEdit? ==> Do(env, s, e).db == s.db && Do(env, s, e).process.managed == s.process.managed
  {
  }

  /** The server answers 304 exactly to the tag of the document it holds. */
  lemma ServerAnswers(env: Env, s: Sys)
    requires Enabled(s, Respond(true))
    ensures var sent, reply := s.process.check.value.sent, Do(env, s, Respond(true)).process.check.value.reply;
            if s.server.None? then reply == Some(NotFound)
            else if sent.Some? && sent == env.etag(s.server.value) then reply == Some(NotModified(s.server.value))
            else reply == Some(Served(s.server.value))
  {
  }

  // ---- what every run keeps ----

  /** The text is the serialised form of one of the documents. */
  ghost predicate IsFrom(env: Env, docs: set<Document>, text: Text) {
    exists d | d in docs :: env.yaml(d) == text
  }

  /** Tag and hash were stored together, from one served document. */
  ghost predicate KeysHonest(env: Env, db: Db, served: set<Document>) {
    && (db.etag.Some? <==> db.hash.Some?)
    && (db.etag.Some? ==> exists d | d in served :: env.etag(d) == db.etag && env.yaml(d) == db.hash.value)
  }

  /** A conditional check sent the tag of the served document it holds. */
  ghost predicate SentHonest(env: Env, check: Check, served: set<Document>) {
    check.sent.Some? ==>
      check.stored.Some? && exists d | d in served :: env.etag(d) == check.sent && env.yaml(d) == check.stored.value
  }

  /** A reply names a document that the server held while the check was under way. */
  predicate ReplyHonest(env: Env, check: Check) {
    check.reply.Some? ==>
      match check.reply.value
      case NotModified(d) => d in check.seen && check.sent.Some? && env.etag(d) == check.sent
      case Served(d) => d in check.seen
      case _ => true
  }

  ghost predicate CheckHonest(env: Env, s: Sys) {
    s.process.check.Some? ==>
      var check := s.process.check.value;
      && SentHonest(env, check, s.served) && ReplyHonest(env, check)
      && (s.server.Some? ==> s.server.value in check.seen)
      && (check.ownedAtStart ==> s.process.managed && Active(env.parse, s.db) == check.stored)
  }

  ghost predicate Sound(env: Env, s: Sys) {
    Materialised(env.parse, s.db) && KeysHonest(env, s.db, s.served) && CheckHonest(env, s)
  }

  lemma KeysStayHonest(env: Env, s: Sys, e: Event)
    requires Sound(env, s) && Enabled(s, e)
    ensures KeysHonest(env, Do(env, s, e).db, Do(env, s, e).served)
    ensures Materialised(env.parse, Do(env, s, e).db)
  {
    match e
    case LocalApply(text, secretsSet) =>
      if env.parse(text).Some? {
        SaveActivates(env.parse, s.db, text, "local");
      }
    case Finish(secretsSet, storeUp) =>
      var check := s.process.check.value;
      if AnswerOf(env, check, secretsSet, storeUp).Managed? && check.reply.value.Served? {
        SaveActivates(env.parse, s.db, env.yaml(check.reply.value.d), REMOTE_ACTOR);
      }
    case _ =>
  }

  lemma CheckStaysHonest(env: Env, s: Sys, e: Event)
    requires Sound(env, s) && Enabled(s, e)
    ensures CheckHonest(env, Do(env, s, e))
  {
  }

  lemma {:induction false} RunsStaySound(env: Env, s: Sys, events: seq<Event>)
    requires Sound(env, s) && Valid(env, s, events)
    ensures Sound(env, End(env, s, events))
    decreases |events|
  {
    if events != [] {
      KeysStayHonest(env, s, events[0]);
      CheckStaysHonest(env, s, events[0]);
      RunsStaySound(env, Do(env, s, events[0]), events[1..]);
    }
  }

  // ---- an answer that End Close owns the configuration ----

  /** The check is about to answer `managed`. */
  predicate AnswersManaged(env: Env, s: Sys, secretsSet: bool, storeUp: bool) {
    Enabled(s, Finish(secretsSet, storeUp)) && AnswerOf(env, s.process.check.value, secretsSet, storeUp).Managed?
  }

  /** The active document is one that the server held during the check. */
  ghost predicate IsOwned(env: Env, db: Db, seen: set<Document>) {
    Active(env.parse, db).Some? && IsFrom(env, seen, Active(env.parse, db).value)
  }

  /** A 200 leaves the served document active, whatever was applied meanwhile. */
  lemma ServedIsActive(env: Env, s: Sys, secretsSet: bool, storeUp: bool)
    requires Sound(env, s) && AnswersManaged(env, s, secretsSet, storeUp)
    requires s.process.check.value.reply.value.Served?
    ensures IsOwned(env, Finished(env, s, secretsSet, storeUp).db, s.process.check.value.seen)
  {
    var d := s.process.check.value.reply.value.d;
    SaveActivates(env.parse, s.db, env.yaml(d), REMOTE_ACTOR);
    assert Active(env.parse, Kept(env, s.db, d)) == Active(env.parse, Saved(s.db, env.yaml(d), env.parse(env.yaml(d)).value, REMOTE_ACTOR));
  }

  /** The document a 304 vouches for is the one stored when the check started. */
  lemma NotModifiedMeansStored(env: Env, check: Check, served: set<Document>)
    requires TagsIdentify(env) && SentHonest(env, check, served) && ReplyHonest(env, check)
    requires check.reply.Some? && check.reply.value.NotModified?
    ensures check.stored == Some(env.yaml(check.reply.value.d))
    ensures check.reply.value.d in check.seen && check.reply.value.d in served
  {
  }

  /**
   A 304 is honest, in that the document it vouches for is the active one, if and only if the active document
   is still the one the check started from.
   */
  lemma NotModifiedIsHonestIff(env: Env, s: Sys, secretsSet: bool, storeUp: bool)
    requires TagsIdentify(env) && Sound(env, s) && AnswersManaged(env, s, secretsSet, storeUp)
    requires s.process.check.value.reply.value.NotModified?
    ensures Active(env.parse, Finished(env, s, secretsSet, storeUp).db) == Some(env.yaml(s.process.check.value.reply.value.d))
       <==> Active(env.parse, s.db) == s.process.check.value.stored
  {
    NotModifiedMeansStored(env, s.process.check.value, s.served);
  }

  /**
   In every run: a check that starts while End Close owns the configuration and answers `managed`, by 200 or
   by 304, leaves a document active that the server held during that check.
   */
  lemma OwnedCheckIsHonest(env: Env, s0: Sys, events: seq<Event>, secretsSet: bool, storeUp: bool)
    requires TagsIdentify(env) && Init(s0) && Valid(env, s0, events)
    requires AnswersManaged(env, End(env, s0, events), secretsSet, storeUp)
    requires End(env, s0, events).process.check.value.ownedAtStart
    ensures var s := End(env, s0, events);
            IsOwned(env, Finished(env, s, secretsSet, storeUp).db, s.process.check.value.seen)
  {
    RunsStaySound(env, s0, events);
    var s := End(env, s0, events);
    if s.process.check.value.reply.value.Served? {
      ServedIsActive(env, s, secretsSet, storeUp);
    } else {
      NotModifiedMeansStored(env, s.process.check.value, s.served);
    }
  }

  /** A failed check changes neither the owner nor the database. */
  lemma FailureChangesNothing(env: Env, s: Sys, secretsSet: bool, storeUp: bool)
    requires Enabled(s, Finish(secretsSet, storeUp))
    requires AnswerOf(env, s.process.check.value, secretsSet, storeUp).Failed?
    ensures Finished(env, s, secretsSet, storeUp) == s.(process := s.process.(check := None))
  {
  }

  // ---- runs without a local apply during a check ----

  predicate Calm(s: Sys, e: Event) {
    e.LocalApply? ==> s.process.check.None?
  }

  ghost predicate CalmRun(env: Env, s: Sys, events: seq<Event>)
    requires Valid(env, s, events)
    decreases |events|
  {
    events == [] || (Calm(s, events[0]) && CalmRun(env, Do(env, s, events[0]), events[1..]))
  }

  /** What is locked is what End Close served, and a check under way still holds what is active. */
  ghost predicate LockedIsServed(env: Env, s: Sys) {
    && (s.process.managed ==> IsOwned(env, s.db, s.served) && (s.db.hash.Some? ==> WasManaged(env, s.db)))
    && (s.process.check.Some? ==>
          && Active(env.parse, s.db) == s.process.check.value.stored
          && (s.process.check.value.sent.Some? ==> WasManaged(env, s.db)))
  }

  lemma StaysServed(env: Env, s: Sys, e: Event)
    requires TagsIdentify(env) && Sound(env, s) && LockedIsServed(env, s) && Enabled(s, e) && Calm(s, e)
    ensures LockedIsServed(env, Do(env, s, e))
  {
    match e
    case Finish(secretsSet, storeUp) =>
      var check := s.process.check.value;
      if AnswersManaged(env, s, secretsSet, storeUp) {
        if check.reply.value.Served? {
          ServedIsActive(env, s, secretsSet, storeUp);
          var d := check.reply.value.d;
          assert Active(env.parse, Kept(env, s.db, d)) == Active(env.parse, Saved(s.db, env.yaml(d), env.parse(env.yaml(d)).value, REMOTE_ACTOR));
          SaveActivates(env.parse, s.db, env.yaml(d), REMOTE_ACTOR);
        } else {
          NotModifiedMeansStored(env, check, s.served);
        }
      }
    case _ =>
  }

  lemma {:induction false} CalmRunsStayServed(env: Env, s: Sys, events: seq<Event>)
    requires TagsIdentify(env) && Sound(env, s) && LockedIsServed(env, s) && Valid(env, s, events) && CalmRun(env, s, events)
    ensures LockedIsServed(env, End(env, s, events))
    decreases |events|
  {
    if events != [] {
      KeysStayHonest(env, s, events[0]);
      CheckStaysHonest(env, s, events[0]);
      StaysServed(env, s, events[0]);
      CalmRunsStayServed(env, Do(env, s, events[0]), events[1..]);
    }
  }

  /**
   In every run in which no local apply lands during a check: whenever the editor is locked, across restarts
   and failed checks, the active document is one that End Close served; and whenever a check answers
   `managed`, it is one the server held during that check.
   */
  lemma LockedMeansServed(env: Env, s0: Sys, events: seq<Event>, secretsSet: bool, storeUp: bool)
    requires TagsIdentify(env) && Init(s0) && Valid(env, s0, events) && CalmRun(env, s0, events)
    ensures var s := End(env, s0, events);
            && (s.process.managed ==> IsOwned(env, s.db, s.served))
            && (AnswersManaged(env, s, secretsSet, storeUp) ==>
                  IsOwned(env, Finished(env, s, secretsSet, storeUp).db, s.process.check.value.seen))
  {
    RunsStaySound(env, s0, events);
    CalmRunsStayServed(env, s0, events);
    var s := End(env, s0, events);
    if AnswersManaged(env, s, secretsSet, storeUp) {
      if s.process.check.value.reply.value.Served? {
        ServedIsActive(env, s, secretsSet, storeUp);
      } else {
        NotModifiedMeansStored(env, s.process.check.value, s.served);
      }
    }
  }

  /**
   In every such run: a relay that End Close owns is still owned after a restart, until it answers again, if and only
   if the document it served last came with an ETag. The hash that remembers the ownership is kept beside the ETag.
   */
  lemma OwnershipSurvivesRestartIff(env: Env, s0: Sys, events: seq<Event>)
    requires TagsIdentify(env) && Init(s0) && Valid(env, s0, events) && CalmRun(env, s0, events)
    requires End(env, s0, events).process.managed
    ensures Do(env, End(env, s0, events), Restart(true)).process.managed <==> End(env, s0, events).db.etag.Some?
  {
    RunsStaySound(env, s0, events);
    CalmRunsStayServed(env, s0, events);
  }

  // ---- what a local apply during a check does to a 304 ----

  /** The events while one check is under way. */
  predicate DuringCheck(events: seq<Event>) {
    forall k | 0 <= k < |events| :: !events[k].StartCheck? && !events[k].Finish? && !events[k].Restart?
  }

  predicate Applies(env: Env, e: Event) {
    e.LocalApply? && e.secretsSet && env.parse(e.text).Some?
  }

  /** The text of the last local apply that an unlocked editor accepts. */
  function LastApplied(env: Env, events: seq<Event>): Option<Text> {
    if events == [] then None
    else if LastApplied(env, events[1..]).Some? then LastApplied(env, events[1..])
    else if Applies(env, events[0]) then Some(events[0].text)
    else None
  }

  /** While a check is under way the active document is the one it started from, or the last one applied. */
  lemma {:induction false} ActiveDuringCheck(env: Env, s: Sys, events: seq<Event>)
    requires Materialised(env.parse, s.db) && s.process.check.Some? && Valid(env, s, events) && DuringCheck(events)
    ensures var t := End(env, s, events);
            && t.process.check.Some? && t.process.check.value.stored == s.process.check.value.stored
            && Active(env.parse, t.db) == if s.process.managed || LastApplied(env, events).None? then Active(env.parse, s.db)
                                          else LastApplied(env, events)
    decreases |events|
  {
    if events != [] {
      var e, s' := events[0], Do(env, s, events[0]);
      assert DuringCheck(events[1..]);
      assert !e.StartCheck? && !e.Finish? && !e.Restart?;
      if e.LocalApply? && env.parse(e.text).Some? {
        SaveActivates(env.parse, s.db, e.text, "local");
      }
      ActiveDuringCheck(env, s', events[1..]);
    }
  }

  /**
   In every run: a check that is answered 304 leaves the document active that the 304 vouches for, if and only if the
   editor was locked when it started, or no local apply was accepted during the check, or the last one put that very
   document back.
   */
  lemma HonestUnlessAppliedIff(env: Env, s0: Sys, before: seq<Event>, during: seq<Event>, secretsSet: bool, storeUp: bool)
    requires TagsIdentify(env) && Init(s0) && Valid(env, s0, before) && Enabled(End(env, s0, before), StartCheck)
    requires var s1 := Do(env, End(env, s0, before), StartCheck);
             && Valid(env, s1, during) && DuringCheck(during)
             && AnswersManaged(env, End(env, s1, during), secretsSet, storeUp)
             && End(env, s1, during).process.check.value.reply.value.NotModified?
    ensures var s := End(env, s0, before);
            var t := End(env, Do(env, s, StartCheck), during);
            var vouched := Some(env.yaml(t.process.check.value.reply.value.d));
            Active(env.parse, Finished(env, t, secretsSet, storeUp).db) == vouched
            <==> s.process.managed || LastApplied(env, during).None? || LastApplied(env, during) == vouched
  {
    var s := End(env, s0, before);
    var s1 := Do(env, s, StartCheck);
    RunsStaySound(env, s0, before);
    KeysStayHonest(env, s, StartCheck);
    CheckStaysHonest(env, s, StartCheck);
    RunsStaySound(env, s1, during);
    ActiveDuringCheck(env, s1, during);
    NotModifiedIsHonestIff(env, End(env, s1, during), secretsSet, storeUp);
    NotModifiedMeansStored(env, End(env, s1, during).process.check.value, End(env, s1, during).served);
  }

  // ---- the run in which a local edit is passed off as End Close's ----

  lemma {:induction false} OneMore(env: Env, s: Sys, events: seq<Event>, e: Event)
    requires Valid(env, s, events) && Enabled(End(env, s, events), e)
    ensures Valid(env, s, events + [e]) && End(env, s, events + [e]) == Do(env, End(env, s, events), e)
    decreases |events|
  {
    if events == [] {
      assert [e][1..] == [];
    } else {
      assert (events + [e])[1..] == events[1..] + [e];
      OneMore(env, Do(env, s, events[0]), events[1..], e);
    }
  }

  /** A document served without an ETag is owned until the restart, and not after it. */
  lemma OwnershipLostAtRestart(env: Env, d: Document) returns (s0: Sys, events: seq<Event>)
    requires env.etag(d).None? && env.parse(env.yaml(d)).Some?
    ensures Init(s0) && Valid(env, s0, events) && End(env, s0, events).process.managed
    ensures !Do(env, End(env, s0, events), Restart(true)).process.managed
  {
    s0 := Sys(EMPTY, Some(d), Process(false, false, None), {});
    events := [];
    OneMore(env, s0, events, Restart(true));
    events := events + [Restart(true)];
    OneMore(env, s0, events, StartCheck);
    events := events + [StartCheck];
    OneMore(env, s0, events, Respond(true));
    events := events + [Respond(true)];
    OneMore(env, s0, events, Finish(true, true));
    events := events + [Finish(true, true)];
    assert End(env, s0, events).db == Kept(env, EMPTY, d);
  }

  /** End Close served `d` and management was switched off; `x` was applied, and then `d`'s own text again. */
  lemma ReappliedLocally(env: Env, d: Document, x: Text) returns (s0: Sys, events: seq<Event>)
    requires env.etag(d).Some? && env.parse(env.yaml(d)).Some? && env.parse(x).Some? && x != env.yaml(d)
    ensures Init(s0) && Valid(env, s0, events)
    ensures var s := End(env, s0, events);
            && s.process == Process(true, false, None) && s.server == Some(d)
            && WasManaged(env, s.db) && Active(env.parse, s.db) == Some(env.yaml(d)) && s.db.etag == env.etag(d)
  {
    s0 := Sys(EMPTY, Some(d), Process(false, false, None), {});
    events := [];
    OneMore(env, s0, events, Restart(true));
    events := events + [Restart(true)];
    OneMore(env, s0, events, StartCheck);
    events := events + [StartCheck];
    OneMore(env, s0, events, Respond(true));
    events := events + [Respond(true)];
    OneMore(env, s0, events, Finish(true, true));
    events := events + [Finish(true, true)];
    assert End(env, s0, events).db == Kept(env, EMPTY, d);
    OneMore(env, s0, events, Restart(false));
    events := events + [Restart(false)];
    OneMore(env, s0, events, LocalApply(x, true));
    events := events + [LocalApply(x, true)];
    assert Active(env.parse, End(env, s0, events).db) == Some(x);
    OneMore(env, s0, events, Restart(true));
    events := events + [Restart(true)];
    OneMore(env, s0, events, LocalApply(env.yaml(d), true));
    events := events + [LocalApply(env.yaml(d), true)];
  }

  /**
   Without that condition the answer can be wrong: a conditional check that starts while the editor is
   unlocked, and a local apply before its 304 arrives, end in `managed` over a text that is not End Close's.
   */
  lemma LocalEditPassedOff(env: Env, d: Document, x: Text, y: Text) returns (s0: Sys, events: seq<Event>)
    requires env.etag(d).Some? && env.parse(env.yaml(d)).Some?
    requires env.parse(x).Some? && x != env.yaml(d) && env.parse(y).Some? && y != env.yaml(d)
    ensures Init(s0) && Valid(env, s0, events) && AnswersManaged(env, End(env, s0, events), true, true)
    ensures var s := End(env, s0, events);
            && Finished(env, s, true, true).process.managed
            && Active(env.parse, Finished(env, s, true, true).db) == Some(y)
            && !IsOwned(env, Finished(env, s, true, true).db, s.process.check.value.seen)
  {
    s0, events := ReappliedLocally(env, d, x);
    OneMore(env, s0, events, StartCheck);
    events := events + [StartCheck];
    OneMore(env, s0, events, LocalApply(y, true));
    events := events + [LocalApply(y, true)];
    OneMore(env, s0, events, Respond(true));
    events := events + [Respond(true)];
    assert End(env, s0, events).process.check.value.reply == Some(NotModified(d));
    assert End(env, s0, events).process.check.value.seen == {d};
  }

  /** It does not last: the next check finds that hash and document differ and fetches in full. */
  lemma MismatchFetchesInFull(env: Env, s: Sys)
    requires s.process.check.None?
    ensures Started(env, s).sent.Some? ==> s.db.hash == Active(env.parse, s.db)
    ensures s.db.hash != Active(env.parse, s.db) ==> !ServerReply(env, s.server, Started(env, s).sent).NotModified?
  {
  }
}
