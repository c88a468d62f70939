/** The configuration facts the controller relies on (pkg/config/config.go) and the two lookups over it. */
module Config {
  import Retry

  datatype Database = Database(id: string, name: string)

  datatype Nodepool = Nodepool(name: string, databases: seq<Database>)

  datatype Config = Config(nodepools: seq<Nodepool>, retry: Retry.RetryConfig, nodepoolLabelKey: string,
                           enableIPv4: bool, enableIPv6: bool)

  /** Validate, for the fields above. */
  predicate Validated(cfg: Config) {
    && cfg.nodepools != []
    && cfg.nodepoolLabelKey != ""
    && (cfg.enableIPv4 || cfg.enableIPv6)
    && (forall i | 0 <= i < |cfg.nodepools| ::
          && cfg.nodepools[i].name != ""
          && cfg.nodepools[i].databases != []
          && forall j | 0 <= j < |cfg.nodepools[i].databases| ::
               cfg.nodepools[i].databases[j].id != "" && cfg.nodepools[i].databases[j].name != "")
    && Retry.Validated(cfg.retry)
  }

  /** The databases of the first nodepool with the given name; none when there is no such nodepool. */
  function DatabasesFor(nodepools: seq<Nodepool>, name: string): seq<Database> {
    if nodepools == [] then []
    else if nodepools[0].name == name then nodepools[0].databases
    else DatabasesFor(nodepools[1..], name)
  }

  predicate IsConfigured(nodepools: seq<Nodepool>, name: string) {
    exists i | 0 <= i < |nodepools| :: nodepools[i].name == name
  }

  ghost function Ids(databases: seq<Database>): set<string> {
    set d | d in databases :: d.id
  }

  /** The ids of all configured databases. */
  ghost function AllIds(nodepools: seq<Nodepool>): set<string> {
    if nodepools == [] then {} else Ids(nodepools[0].databases) + AllIds(nodepools[1..])
  }

  /** Every database of every pool is among them, and nothing else. */
  lemma {:induction false} AllIdsByIndex(nodepools: seq<Nodepool>, id: string)
    ensures id in AllIds(nodepools) <==>
      exists i, j :: 0 <= i < |nodepools| && 0 <= j < |nodepools[i].databases| && nodepools[i].databases[j].id == id
  {
    if nodepools == [] {
    } else {
      var rest := nodepools[1..];
      AllIdsByIndex(rest, id);
      if id in AllIds(rest) {
        var i, j :| 0 <= i < |rest| && 0 <= j < |rest[i].databases| && rest[i].databases[j].id == id;
        assert nodepools[i + 1].databases[j].id == id;
      }
      forall i, j | 0 <= i < |nodepools| && 0 <= j < |nodepools[i].databases| && nodepools[i].databases[j].id == id
        ensures id in AllIds(nodepools)
      {
        if i > 0 {
          assert rest[i - 1].databases[j].id == id;
        }
      }
    }
  }

  /** A pool's databases are those of the first entry bearing its name, whatever comes after it. */
  lemma {:induction false} FirstPoolWins(nodepools: seq<Nodepool>, name: string)
    ensures IsConfigured(nodepools, name) ==>
      exists i | 0 <= i < |nodepools| :: nodepools[i].name == name
        && DatabasesFor(nodepools, name) == nodepools[i].databases
         && forall k | 0 <= k < i :: nodepools[k].name != name
    ensures !IsConfigured(nodepools, name) ==> DatabasesFor(nodepools, name) == []
  {
    if nodepools != [] && nodepools[0].name != name {
      var rest := nodepools[1..];
      FirstPoolWins(rest, name);
      if IsConfigured(nodepools, name) {
        var i :| 0 <= i < |nodepools| && nodepools[i].name == name;
        assert rest[i - 1].name == name;
        var j :| 0 <= j < |rest| && rest[j].name == name && DatabasesFor(rest, name) == rest[j].databases
          && forall k | 0 <= k < j :: rest[k].name != name;
        assert forall k | 0 <= k < j + 1 :: nodepools[k].name != name by {
          forall k | 0 < k < j + 1 ensures nodepools[k].name != name { assert rest[k - 1].name != name; }
        }
        assert nodepools[j + 1].databases == DatabasesFor(nodepools, name);
      } else {
        assert forall i | 0 <= i < |rest| :: rest[i] == nodepools[i + 1];
      }
    }
  }

  /** Under Validate a configured pool never runs into the "no databases" error. */
  lemma ConfiguredPoolHasDatabases(cfg: Config, name: string)
    requires Validated(cfg) && IsConfigured(cfg.nodepools, name)
    ensures DatabasesFor(cfg.nodepools, name) != []
  {
    FirstPoolWins(cfg.nodepools, name);
  }
}
