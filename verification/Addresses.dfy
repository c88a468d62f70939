/** Allow-list entries as text: `normalizeIP` of pkg/linode/client.go and the sets it induces. */
module Addresses {
  import opened Ordering

  function NormalizeIP(ip: string): (entry: string)
    ensures '/' in entry
  {
    if '/' in ip then ip
    else if ':' in ip then
      assert (ip + "/128")[|ip|] == '/';
      ip + "/128"
    else
      assert (ip + "/32")[|ip|] == '/';
      ip + "/32"
  }

  lemma NormalizeIdempotent(ip: string)
    ensures NormalizeIP(NormalizeIP(ip)) == NormalizeIP(ip)
    ensures NormalizeIP(ip) == ip <==> '/' in ip
  {
  }

  /** A host entry: a text without '/' followed by the prefix length of its family. */
  ghost predicate HostEntry(entry: string) {
    || (|entry| >= 3 && entry[|entry| - 3..] == "/32" && '/' !in entry[..|entry| - 3] && ':' !in entry)
    || (|entry| >= 4 && entry[|entry| - 4..] == "/128" && '/' !in entry[..|entry| - 4] && ':' in entry)
  }

  /** Normalising a text without '/' yields a host entry, and the text before its '/' is the given one. */
  lemma NormalizeGivesHostEntry(ip: string)
    requires '/' !in ip
    ensures HostEntry(NormalizeIP(ip))
    ensures ip <= NormalizeIP(ip) && NormalizeIP(ip)[|ip|] == '/'
  {
    var e := NormalizeIP(ip);
    if ':' in ip {
      assert e[..|e| - 4] == ip && e[|e| - 4..] == "/128";
      var i :| 0 <= i < |ip| && ip[i] == ':';
      assert e[i] == ':';
    } else {
      assert e[..|e| - 3] == ip && e[|e| - 3..] == "/32";
      forall i | 0 <= i < |e| ensures e[i] != ':' {
        if i < |ip| { assert e[i] == ip[i]; } else { assert e[i] == "/32"[i - |ip|]; }
      }
    }
  }

  /** No two texts without '/' share a normal form. */
  lemma NormalizeInjective(a: string, b: string)
    requires '/' !in a && '/' !in b && NormalizeIP(a) == NormalizeIP(b)
    ensures a == b
  {
    var e := NormalizeIP(a);
    assert e[|a|] == '/' && e[|b|] == '/';
    assert forall k | 0 <= k < |a| :: e[k] == a[k] != '/';
    assert forall k | 0 <= k < |b| :: e[k] == b[k] != '/';
    assert a == e[..|a|] && b == e[..|b|];
  }

  /** The set that updateDatabaseAllowList builds from a list: normalised, without multiplicity. */
  ghost function NormSet(list: seq<string>): set<string> {
    set e | e in list :: NormalizeIP(e)
  }

  ghost predicate Normalised(s: set<string>) {
    forall e | e in s :: '/' in e
  }

  lemma NormSetNormalised(list: seq<string>)
    ensures Normalised(NormSet(list))
  {
  }

  /** A normalised set survives being written as a sorted list and read back. */
  lemma NormSetOfSortedList(s: set<string>)
    requires Normalised(s)
    ensures NormSet(SortedList(s)) == s
  {
    var l := SortedList(s);
    forall e ensures e in l <==> e in s {
      assert e in Elements(l) <==> e in l;
    }
    forall e | e in s ensures e in NormSet(l) {
      assert NormalizeIP(e) == e && e in l;
    }
  }

  lemma NormSetStep(list: seq<string>, i: nat)
    requires i < |list|
    ensures NormSet(list[..i + 1]) == NormSet(list[..i]) + {NormalizeIP(list[i])}
  {
    assert list[..i + 1] == list[..i] + [list[i]];
  }

  /** An entry that is not a host entry is in the list itself as soon as it is in its set. */
  lemma NonHostEntryIsVerbatim(list: seq<string>, entry: string)
    requires entry in NormSet(list) && !HostEntry(entry)
    ensures entry in list
  {
    var e :| e in list && NormalizeIP(e) == entry;
    if '/' !in e {
      NormalizeGivesHostEntry(e);
    }
  }
}
