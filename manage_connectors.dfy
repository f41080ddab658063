/**
 * The connector switchboard (`manage_connectors.py`): show which data
 * source connectors the `ENABLE_*` variables turn on, and flip one of them
 * by writing the whole process environment back to `.env`. The process
 * environment after `load_dotenv` is an input; the `.env` file is an object
 * whose contents `save_env` replaces. Console output is left out.
 */
module ManageConnectors {
  import opened Common

  /** The connector names `toggle` accepts and the variable of each. */
  const ConnectorKeys: map<string, string> := map[
    "pubmed" := "ENABLE_PUBMED",
    "uniprot" := "ENABLE_UNIPROT",
    "drugbank" := "ENABLE_DRUGBANK",
    "google" := "ENABLE_GOOGLE_HEALTH_BLOG"]

  /** A flag is on when it reads `true` in any letter case. */
  predicate Enabled(value: string)
  {
    Lower(value) == "true"
  }

  /** `env.get(key, fallback)` on the string environment. */
  function Lookup(env: map<string, string>, key: string, fallback: string): string
  {
    if key in env then env[key] else fallback
  }

  // ---------------------------------------------------------------- status

  /** One line of the status table: the connector's caption, its variable and
      the value assumed when the variable is unset. */
  datatype Row = Row(caption: string, key: string, fallback: string)

  const StatusRows: seq<Row> := [
    Row("PubMed", "ENABLE_PUBMED", "true"),
    Row("UniProt", "ENABLE_UNIPROT", "true"),
    Row("DrugBank", "ENABLE_DRUGBANK", "false"),
    Row("Google Health Blog", "ENABLE_GOOGLE_HEALTH_BLOG", "false")]

  /** `show_status`, returning each caption with whether it shows enabled. */
  method ShowStatus(env: map<string, string>) returns (shown: seq<(string, bool)>)
    ensures |shown| == |StatusRows|
    ensures forall k :: 0 <= k < |shown| ==>
      shown[k].0 == StatusRows[k].caption
      && (shown[k].1 <==> Enabled(Lookup(env, StatusRows[k].key, StatusRows[k].fallback)))
  {
    shown := [];
    for i := 0 to |StatusRows|
      invariant |shown| == i
      invariant forall k :: 0 <= k < i ==>
        shown[k].0 == StatusRows[k].caption
        && (shown[k].1 <==> Enabled(Lookup(env, StatusRows[k].key, StatusRows[k].fallback)))
    {
      var row := StatusRows[i];
      var status := Lookup(env, row.key, row.fallback);
      shown := shown + [(row.caption, Lower(status) == "true")];
    }
  }

  // ---------------------------------------------------------------- toggle

  /** The value assumed for an unset variable when toggling: "false" for
      drugbank, "true" for every other connector. */
  function Assumed(name: string): string
  {
    if Lower(name) != "drugbank" then "true" else "false"
  }

  /** The new value of a flag. */
  function Flip(current: string): (r: string)
    ensures r == "true" || r == "false"
    ensures Enabled(r) <==> !Enabled(current)
  {
    if Lower(current) == "true" then "false" else "true"
  }

  /** What `toggle_connector(name)` writes to `.env`: nothing for an unknown
      name, otherwise the whole environment with the connector's variable
      flipped. */
  function Toggled(env: map<string, string>, name: string): Option<map<string, string>>
  {
    if Lower(name) !in ConnectorKeys then None
    else
      var key := ConnectorKeys[Lower(name)];
      Some(env[key := Flip(Lookup(env, key, Assumed(name)))])
  }

  /** The `.env` file. */
  class DotEnv {
    var contents: map<string, string>

    constructor (initial: map<string, string>)
      ensures contents == initial
    {
      contents := initial;
    }

    /** `save_env`: the file holds exactly the given variables. */
    method Save(env: map<string, string>)
      modifies this
      ensures contents == env
    {
      contents := env;
    }
  }

  /** `toggle_connector(name)` with `env` the loaded environment; it returns
      the new status, `None` for an unknown name. */
  method ToggleConnector(file: DotEnv, env: map<string, string>, name: string) returns (newStatus: Option<string>)
    modifies file
    ensures Toggled(env, name).None? ==> newStatus.None? && file.contents == old(file.contents)
    ensures Toggled(env, name).Some? ==>
      file.contents == Toggled(env, name).value
      && newStatus == Some(file.contents[ConnectorKeys[Lower(name)]])
  {
    var lowered := Lower(name);
    if lowered !in ConnectorKeys {
      return None;
    }
    var key := ConnectorKeys[lowered];
    var current := Lookup(env, key, if lowered != "drugbank" then "true" else "false");
    var status := if Lower(current) == "true" then "false" else "true";
    var env' := env[key := status];
    file.Save(env');
    newStatus := Some(status);
  }

  /** An unknown name, in any letter case, writes nothing; a known one writes
      every variable of the environment plus the connector's, changing only
      the connector's, which becomes "true" or "false", enabled exactly when
      it was not (an unset one counting as its assumed value). */
  lemma ToggleEffect(env: map<string, string>, name: string)
    ensures Toggled(env, name).None? <==> Lower(name) !in ConnectorKeys
    ensures Toggled(env, name).Some? ==>
      var m := Toggled(env, name).value;
      var key := ConnectorKeys[Lower(name)];
      && m.Keys == env.Keys + {key}
      && (forall k :: k in env && k != key ==> m[k] == env[k])
      && (m[key] == "true" || m[key] == "false")
      && (Enabled(m[key]) <==> !Enabled(Lookup(env, key, Assumed(name))))
  {
  }

  /** Toggling twice restores whether the connector is enabled, and leaves
      its variable set to plain "true" or "false". */
  lemma ToggleTwice(env: map<string, string>, name: string)
    requires Lower(name) in ConnectorKeys
    ensures var key := ConnectorKeys[Lower(name)];
      var m := Toggled(Toggled(env, name).value, name).value;
      && m == env[key := if Enabled(Lookup(env, key, Assumed(name))) then "true" else "false"]
  {
    var key := ConnectorKeys[Lower(name)];
    var m1 := Toggled(env, name).value;
    assert Lookup(m1, key, Assumed(name)) == m1[key];
    assert Lower("true") == "true";
    assert Lower("false") == "false";
  }

  /** Status and toggle disagree about an unset Google flag: the status
      shows it disabled, yet toggling it writes "false", so it stays
      disabled; for the other connectors they agree. */
  lemma GoogleDefaultsDisagree(env: map<string, string>)
    requires "ENABLE_GOOGLE_HEALTH_BLOG" !in env
    ensures !Enabled(Lookup(env, StatusRows[3].key, StatusRows[3].fallback))
    ensures Toggled(env, "google") == Some(env["ENABLE_GOOGLE_HEALTH_BLOG" := "false"])
  {
    assert Lower("google") == "google";
    assert Lower("false") == "false";
    assert Lower("true") == "true";
  }

  /** For every connector but Google, the value assumed by the status table
      and by the toggle is the same. */
  lemma DefaultsAgreeElsewhere(name: string, k: nat)
    requires name in ConnectorKeys && name != "google" && k < |StatusRows|
    requires StatusRows[k].key == ConnectorKeys[name]
    ensures StatusRows[k].fallback == Assumed(name)
  {
    assert Lower(name) == name by {
      assert Lower("pubmed") == "pubmed" && Lower("uniprot") == "uniprot" && Lower("drugbank") == "drugbank";
    }
  }

  // ---------------------------------------------------------------- main

  /** What `main` does with its command-line arguments (after the program
      name). */
  datatype Action = ShowUsage | Status | MissingName | Toggle(name: string) | UnknownCommand(command: string)

  function Dispatch(args: seq<string>): (a: Action)
    ensures a.Toggle? ==> |args| >= 2 && a.name == args[1]
  {
    if |args| < 1 then ShowUsage
    else
      var command := Lower(args[0]);
      if command == "status" then Status
      else if command == "toggle" then (if |args| < 2 then MissingName else Toggle(args[1]))
      else UnknownCommand(command)
  }

  /** Commands are matched in any letter case; the connector name is passed
      on as typed (the toggle lower-cases it itself). */
  lemma DispatchCases(args: seq<string>)
    ensures Dispatch(args) == ShowUsage <==> args == []
    ensures Dispatch(args) == Status <==> args != [] && Lower(args[0]) == "status"
    ensures Dispatch(args).Toggle? <==> |args| >= 2 && Lower(args[0]) == "toggle"
    ensures Dispatch(args) == MissingName <==> |args| == 1 && Lower(args[0]) == "toggle"
  {
  }
}
