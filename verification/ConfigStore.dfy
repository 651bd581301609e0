/**
 The configuration database: an append-only list of versions, the routes and pause flags materialised from
 the latest one, and the keys that remember what End Close served. The hash of a text stands for the text.
 */
module ConfigStore {
  import opened Prelude

  type Text = string

  /** `parse` gives the route ids of a text that the schema accepts. */
  type Parser = Text -> Option<set<string>>

  datatype Version = Version(text: Text, author: string)

  datatype Db = Db(
    versions: seq<Version>,
    routes: set<string>,
    paused: set<string>,
    etag: Option<string>,
    hash: Option<Text>,
    environment: Option<string>)

  datatype SaveError = Rejected | MissingSecret

  function Latest(db: Db): Option<Text> {
    if db.versions == [] then None else Some(db.versions[|db.versions| - 1].text)
  }

  /** The stored configuration, unless there is none or the schema rejects it. */
  function Active(parse: Parser, db: Db): Option<Text> {
    var latest := Latest(db);
    if latest.Some? && parse(latest.value).Some? then latest else None
  }

  /** The database after an accepted text was saved. */
  function Saved(db: Db, text: Text, routes: set<string>, author: string): Db {
    if Latest(db) == Some(text) then db
    else db.(versions := db.versions + [Version(text, author)], routes := routes, paused := db.paused * routes)
  }

  /** The routes in force are those of the latest version, and no flag outlives its route. */
  predicate Materialised(parse: Parser, db: Db) {
    db.versions != [] ==> parse(Latest(db).value) == Some(db.routes) && db.paused <= db.routes
  }

  lemma SaveActivates(parse: Parser, db: Db, text: Text, author: string)
    requires parse(text).Some? && Materialised(parse, db)
    ensures var after := Saved(db, text, parse(text).value, author);
            && Active(parse, after) == Some(text) && Materialised(parse, after)
            && db.versions <= after.versions && |after.versions| <= |db.versions| + 1
            && (after == db <==> Latest(db) == Some(text))
            && (after != db ==> after.versions[|db.versions|] == Version(text, author))
            && after.routes == parse(text).value && after.paused == set route | route in db.paused && route in after.routes
            && after.etag == db.etag && after.hash == db.hash && after.environment == db.environment
  {
  }

  /** A route that comes back after it was removed does not come back paused. */
  lemma RemovedRouteForgetsItsPause(parse: Parser, db: Db, without: Text, with_: Text, author: string, route: string)
    requires Materialised(parse, db) && parse(without).Some? && parse(with_).Some?
    requires route !in parse(without).value && route in parse(with_).value
    ensures var gone := Saved(db, without, parse(without).value, author);
            route !in Saved(gone, with_, parse(with_).value, author).paused
  {
    SaveActivates(parse, db, without, author);
  }

  class ConfigDb {
    var versions: seq<Version>
    var routes: set<string>
    var paused: set<string>
    var etag: Option<string>
    var hash: Option<Text>
    var environment: Option<string>

    function Contents(): Db
      reads this
    {
      Db(versions, routes, paused, etag, hash, environment)
    }

    constructor ()
      ensures Contents() == Db([], {}, {}, None, None, None)
    {
      versions, routes, paused, etag, hash, environment := [], {}, {}, None, None, None;
    }

    method DropStalePauses(ids: set<string>)
      modifies this`paused
      ensures paused == old(paused) * ids
    {
      var todo := paused;
      while todo != {}
        invariant todo <= old(paused)
        invariant paused == old(paused) - (old(paused) - todo - ids)
        decreases |todo|
      {
        var flag :| flag in todo;
        if flag !in ids {
          paused := paused - {flag};
        }
        todo := todo - {flag};
      }
    }

    /** Validate and persist a text; a no-op when it is the latest version already. */
    method SaveConfig(parse: Parser, secretsSet: bool, text: Text, author: string) returns (r: Result<set<string>, SaveError>)
      modifies this
      ensures r == if parse(text).None? then Err(Rejected)
                   else if !secretsSet then Err(MissingSecret) else Ok(parse(text).value)
      ensures Contents() == if r.Ok? then Saved(old(Contents()), text, r.value, author) else old(Contents())
    {
      var ids := parse(text);
      if ids.None? {
        return Err(Rejected);
      }
      if !secretsSet {
        return Err(MissingSecret);
      }
      if versions == [] || versions[|versions| - 1].text != text {
        routes := ids.value;
        DropStalePauses(ids.value);
        versions := versions + [Version(text, author)];
      }
      return Ok(ids.value);
    }
  }
}
