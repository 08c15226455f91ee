/**
 `policy export` and `policy import`: policies travel in a document keyed by
 the text form of their target. The repository keeps one policy per target.
 */
module PolicyTransfer {
  import opened Wrappers
  import opened Sources

  type Policy = string

  type Document = map<string, Policy>

  /** The policies of one repository. */
  class PolicyStore {
    var policies: map<SourceInfo, Policy>

    constructor ()
      ensures policies == map[]
    {
      policies := map[];
    }

    /** policy.SetPolicy: replaces the policy of the target, or fails and changes nothing. */
    method SetPolicy(target: SourceInfo, pol: Policy) returns (ok: bool)
      modifies this
      ensures policies == if ok then old(policies)[target := pol] else old(policies)
    {
      ok := *;
      if ok {
        policies := policies[target := pol];
      }
    }

    /** policy.RemovePolicy. */
    method RemovePolicy(target: SourceInfo) returns (ok: bool)
      modifies this
      ensures policies == if ok then old(policies) - {target} else old(policies)
    {
      ok := *;
      if ok {
        policies := policies - {target};
      }
    }
  }

  // ---------------------------------------------------------------- export

  /** Every policy is in the document under its target's text, and the document has nothing else. */
  ghost predicate IsExport(doc: Document, policies: map<SourceInfo, Policy>) {
    && (forall t :: t in policies ==> Print(t) in doc)
    && (forall k :: k in doc ==> exists t :: t in policies && Print(t) == k && policies[t] == doc[k])
  }

  method Export(policies: map<SourceInfo, Policy>) returns (doc: Document)
    ensures IsExport(doc, policies)
  {
    doc := map[];
    var rest := policies;
    while rest != map[]
      invariant rest.Keys <= policies.Keys && forall t :: t in rest ==> rest[t] == policies[t]
      invariant forall t :: t in policies && t !in rest ==> Print(t) in doc
      invariant forall k :: k in doc ==> exists t :: t in policies && Print(t) == k && policies[t] == doc[k]
      decreases |rest|
    {
      var t :| t in rest;
      doc := doc[Print(t) := rest[t]];
      rest := rest - {t};
    }
  }

  // ---------------------------------------------------------------- import

  /** The client options and flags of one import. No limit means every target is imported. */
  datatype Options = Options(hostname: string, username: string, abs: string -> Result<string>,
                             limit: Option<set<SourceInfo>>)

  function TargetOf(o: Options, key: string): Result<SourceInfo> { Parse(key, o.hostname, o.username, o.abs) }

  predicate Wanted(o: Options, t: SourceInfo) { o.limit.Some? ==> t in o.limit.value }

  predicate Imported(o: Options, doc: Document, key: string) {
    key in doc && TargetOf(o, key).Ok? && Wanted(o, TargetOf(o, key).value)
  }

  ghost predicate ImportsTo(o: Options, doc: Document, t: SourceInfo) {
    exists k :: Imported(o, doc, k) && TargetOf(o, k).value == t
  }

  /** The policy of t comes from an imported key that names t, or no imported key names t and it is what it was. */
  ghost predicate Sourced(o: Options, doc: Document, before: map<SourceInfo, Policy>, t: SourceInfo, pol: Policy) {
    || (exists k :: Imported(o, doc, k) && TargetOf(o, k).value == t && doc[k] == pol)
    || (t in before && before[t] == pol && !ImportsTo(o, doc, t))
  }

  /** The repository after the keys of doc have been handled, and the keys that were imported. */
  ghost predicate After(o: Options, doc: Document, before: map<SourceInfo, Policy>, policies: map<SourceInfo, Policy>,
                        imported: set<string>) {
    && (forall k :: k in doc ==> TargetOf(o, k).Ok?)
    && (forall k :: k in imported <==> Imported(o, doc, k))
    && (forall t :: t in policies <==> t in before || ImportsTo(o, doc, t))
    && (forall t :: t in policies ==> Sourced(o, doc, before, t, policies[t]))
  }

  lemma HandleKey(o: Options, doc: Document, before: map<SourceInfo, Policy>, policies: map<SourceInfo, Policy>,
                  imported: set<string>, key: string, pol: Policy)
    requires After(o, doc, before, policies, imported) && key !in doc && TargetOf(o, key).Ok?
    ensures var target := TargetOf(o, key).value;
      if Wanted(o, target) then After(o, doc[key := pol], before, policies[target := pol], imported + {key})
      else After(o, doc[key := pol], before, policies, imported)
  {
    hide TargetOf, Wanted;
    var target := TargetOf(o, key).value;
    var doc' := doc[key := pol];
    assert forall k :: Imported(o, doc', k) <==> Imported(o, doc, k) || (k == key && Wanted(o, target));
    var policies' := if Wanted(o, target) then policies[target := pol] else policies;
    forall t ensures ImportsTo(o, doc', t) <==> ImportsTo(o, doc, t) || (Wanted(o, target) && t == target) {
      if Wanted(o, target) && t == target {
        assert Imported(o, doc', key);
      }
      if k :| Imported(o, doc, k) && TargetOf(o, k).value == t {
        assert Imported(o, doc', k);
      }
    }
    forall t | t in policies' ensures Sourced(o, doc', before, t, policies'[t]) {
      if t == target && Wanted(o, target) {
        assert Imported(o, doc', key);
      } else {
        assert Sourced(o, doc, before, t, policies[t]);
      }
    }
  }

  lemma NothingHandled(o: Options, policies: map<SourceInfo, Policy>)
    ensures After(o, map[], policies, policies, {})
  {
  }

  method ImportAll(store: PolicyStore, doc: Document, o: Options) returns (ok: bool, imported: set<string>)
    modifies store
    ensures ok ==> After(o, doc, old(store.policies), store.policies, imported)
  {
    hide After;
    var rest := doc;
    ghost var seen: Document := map[];
    imported := {};
    assert After(o, seen, store.policies, store.policies, imported) by { NothingHandled(o, store.policies); }
    while rest != map[]
      invariant rest.Keys <= doc.Keys && seen.Keys == doc.Keys - rest.Keys
      invariant (forall k :: k in rest ==> rest[k] == doc[k]) && (forall k :: k in seen ==> seen[k] == doc[k])
      invariant After(o, seen, old(store.policies), store.policies, imported)
      decreases |rest|
    {
      var ts :| ts in rest;
      var pol := rest[ts];
      rest := rest - {ts};
      match TargetOf(o, ts)
      case Err => return false, imported;
      case Ok(target) =>
        HandleKey(o, seen, old(store.policies), store.policies, imported, ts, pol);
        seen := seen[ts := pol];
        if Wanted(o, target) {
          imported := imported + {ts};
          ok := store.SetPolicy(target, pol);
          if !ok {
            return;
          }
        }
    }
    assert seen == doc;
    ok := true;
  }

  method DeleteOthers(store: PolicyStore, imported: set<string>) returns (ok: bool)
    modifies store
    ensures ok ==> (forall t :: t in store.policies <==> t in old(store.policies) && Print(t) in imported)
    ensures forall t :: t in store.policies ==> t in old(store.policies) && store.policies[t] == old(store.policies)[t]
  {
    ghost var before := store.policies;
    var rest := store.policies.Keys;
    while rest != {}
      invariant rest <= before.Keys
      invariant forall t :: t in store.policies <==> t in before && (t in rest || Print(t) in imported)
      invariant forall t :: t in store.policies ==> store.policies[t] == before[t]
      decreases |rest|
    {
      var t :| t in rest;
      rest := rest - {t};
      if Print(t) !in imported {
        ok := store.RemovePolicy(t);
        if !ok {
          return;
        }
      }
    }
    ok := true;
  }

  /** What an import that reports success has done to the repository. */
  ghost predicate IsImport(o: Options, doc: Document, deleteOthers: bool, before: map<SourceInfo, Policy>,
                           after: map<SourceInfo, Policy>) {
    && (forall t :: t in after <==>
          (t in before || ImportsTo(o, doc, t)) && (deleteOthers ==> Imported(o, doc, Print(t))))
    && (forall t :: t in after ==> Sourced(o, doc, before, t, after[t]))
  }

  method Import(store: PolicyStore, doc: Document, o: Options, deleteOthers: bool) returns (ok: bool)
    modifies store
    ensures ok ==> IsImport(o, doc, deleteOthers, old(store.policies), store.policies)
  {
    var imported;
    ok, imported := ImportAll(store, doc, o);
    hide Print, Imported, ImportsTo, Sourced;
    if ok && deleteOthers {
      ok := DeleteOthers(store, imported);
    }
  }

  // ---------------------------------------------------------------- round trip

  /** No target that is not exported prints like an exported one. */
  ghost predicate PrintsApart(policies: map<SourceInfo, Policy>, exported: map<SourceInfo, Policy>) {
    forall t, u :: t in policies && t !in exported && u in exported ==> Print(t) != Print(u)
  }

  ghost predicate Names(o: Options, doc: Document, exported: map<SourceInfo, Policy>, t: SourceInfo) {
    && t in exported && Imported(o, doc, Print(t)) && TargetOf(o, Print(t)) == Ok(t)
    && ImportsTo(o, doc, t) && doc[Print(t)] == exported[t]
  }

  lemma ExportNamesTarget(o: Options, doc: Document, exported: map<SourceInfo, Policy>, t: SourceInfo)
    requires Wanted(o, t) && IsExport(doc, exported) && t in exported
    requires forall u :: u in exported ==> Printable(u)
    ensures Names(o, doc, exported, t)
  {
    ParseUndoesPrint(t, o.hostname, o.username, o.abs);
    var u :| u in exported && Print(u) == Print(t) && exported[u] == doc[Print(t)];
    ParseUndoesPrint(u, o.hostname, o.username, o.abs);
  }

  /** A target is imported if it is exported and wanted, and only with its own policy. */
  lemma ImportedPolicyIsExported(o: Options, doc: Document, exported: map<SourceInfo, Policy>, t: SourceInfo)
    requires IsExport(doc, exported)
    requires forall u :: u in exported ==> Printable(u)
    ensures t in exported && Wanted(o, t) <==> ImportsTo(o, doc, t)
    ensures forall k :: Imported(o, doc, k) && TargetOf(o, k).value == t ==>
                          t in exported && Print(t) == k && doc[k] == exported[t]
  {
    if t in exported && Wanted(o, t) {
      ExportNamesTarget(o, doc, exported, t);
    }
    forall k | Imported(o, doc, k) && TargetOf(o, k).value == t
      ensures t in exported && Print(t) == k && doc[k] == exported[t]
    {
      var u :| u in exported && Print(u) == k && exported[u] == doc[k];
      ParseUndoesPrint(u, o.hostname, o.username, o.abs);
    }
  }

  lemma ExportedTargetArrives(o: Options, doc: Document, exported: map<SourceInfo, Policy>, deleteOthers: bool,
                              before: map<SourceInfo, Policy>, after: map<SourceInfo, Policy>, t: SourceInfo)
    requires IsExport(doc, exported) && IsImport(o, doc, deleteOthers, before, after) && t in exported && Wanted(o, t)
    requires forall u :: u in exported ==> Printable(u)
    ensures t in after && after[t] == exported[t]
  {
    ExportNamesTarget(o, doc, exported, t);
    assert Sourced(o, doc, before, t, after[t]);
    ImportedPolicyIsExported(o, doc, exported, t);
  }

  lemma OnlyLookalikesStay(o: Options, doc: Document, exported: map<SourceInfo, Policy>, deleteOthers: bool,
                           before: map<SourceInfo, Policy>, after: map<SourceInfo, Policy>, t: SourceInfo)
    requires IsExport(doc, exported) && IsImport(o, doc, deleteOthers, before, after)
    requires !(t in exported && Wanted(o, t))
    requires forall u :: u in exported ==> Printable(u)
    ensures t in after <==>
              t in before && (deleteOthers ==> exists u :: u in exported && Wanted(o, u) && Print(t) == Print(u))
    ensures t in after ==> after[t] == before[t]
  {
    ImportedPolicyIsExported(o, doc, exported, t);
    if u :| u in exported && Wanted(o, u) && Print(t) == Print(u) {
      ExportNamesTarget(o, doc, exported, u);
    }
    if Imported(o, doc, Print(t)) {
      ImportedPolicyIsExported(o, doc, exported, TargetOf(o, Print(t)).value);
    }
  }

  /**
   Export and then import, target by target, with any limit. An exported target within the limit gets its policy.
   Any other keeps what it had, or with delete-other-policies goes, unless it prints like one that was imported.
   */
  lemma ImportedTarget(o: Options, doc: Document, exported: map<SourceInfo, Policy>, deleteOthers: bool,
                       before: map<SourceInfo, Policy>, after: map<SourceInfo, Policy>, t: SourceInfo)
    requires IsExport(doc, exported) && IsImport(o, doc, deleteOthers, before, after)
    requires forall u :: u in exported ==> Printable(u)
    ensures
      if t in exported && (o.limit.None? || t in o.limit.value) then t in after && after[t] == exported[t]
      else
        && (t in after <==>
              && t in before
              && (deleteOthers ==>
                    exists u :: u in exported && (o.limit.None? || u in o.limit.value) && Print(t) == Print(u)))
        && (t in after ==> after[t] == before[t])
  {
    hide IsExport, IsImport, Print, Printable;
    if t in exported && Wanted(o, t) {
      ExportedTargetArrives(o, doc, exported, deleteOthers, before, after, t);
    } else {
      OnlyLookalikesStay(o, doc, exported, deleteOthers, before, after, t);
    }
  }

  lemma RoundTrip(o: Options, doc: Document, exported: map<SourceInfo, Policy>, before: map<SourceInfo, Policy>,
                  after: map<SourceInfo, Policy>)
    requires o.limit.None? && IsExport(doc, exported) && IsImport(o, doc, true, before, after)
    requires forall t :: t in exported ==> Printable(t)
    ensures after == exported <==> PrintsApart(before, exported)
  {
    hide IsExport, IsImport, Print, Printable;
    forall t
      ensures t in exported ==> t in after && after[t] == exported[t]
      ensures t !in exported ==> (t in after <==> t in before && exists u :: u in exported && Print(t) == Print(u))
    {
      ImportedTarget(o, doc, exported, true, before, after, t);
    }
  }

  /** In a repository of printable targets no two targets print alike, so the condition holds there. */
  lemma PrintableTargetsPrintApart(t: SourceInfo, u: SourceInfo)
    requires Printable(t) && Printable(u) && Print(t) == Print(u)
    ensures t == u
  {
    var none := (s: string) => Err;
    ParseUndoesPrint(t, "", "", none);
    ParseUndoesPrint(u, "", "", none);
  }

  /** Between repositories of printable targets, export and import with delete-other-policies lose nothing. */
  lemma PrintableRoundTrip(o: Options, doc: Document, exported: map<SourceInfo, Policy>,
                           before: map<SourceInfo, Policy>, after: map<SourceInfo, Policy>)
    requires o.limit.None? && IsExport(doc, exported) && IsImport(o, doc, true, before, after)
    requires forall t :: t in exported ==> Printable(t)
    requires forall t :: t in before ==> Printable(t)
    ensures after == exported
  {
    hide IsExport, IsImport, Print, Printable;
    forall t, u | t in before && t !in exported && u in exported ensures Print(t) != Print(u) {
      if Print(t) == Print(u) {
        PrintableTargetsPrintApart(t, u);
      }
    }
    RoundTrip(o, doc, exported, before, after);
  }

  /**
   Exporting every policy of a repository whose targets can all be printed, and importing the document with
   delete-other-policies, leaves exactly the exported policies, if and only if no other target of the
   receiving repository prints like an exported one, as none does when all of them can be printed.
   */
  method ExportThenImport(exported: map<SourceInfo, Policy>, store: PolicyStore, o: Options) returns (ok: bool)
    requires o.limit.None?
    requires forall t :: t in exported ==> Printable(t)
    modifies store
    ensures ok ==> (store.policies == exported <==> PrintsApart(old(store.policies), exported))
    ensures ok && (forall t :: t in old(store.policies) ==> Printable(t)) ==> store.policies == exported
  {
    var doc := Export(exported);
    ok := Import(store, doc, o, true);
    if ok {
      RoundTrip(o, doc, exported, old(store.policies), store.policies);
      if forall t :: t in old(store.policies) ==> Printable(t) {
        PrintableRoundTrip(o, doc, exported, old(store.policies), store.policies);
      }
    }
  }

  /** Two targets that both print as user@corp@h; the first one is printable. */
  const HOST_WITH_AT := SourceInfo("corp@h", "user", "")

  const USER_WITH_AT := SourceInfo("h", "user@corp", "")

  lemma TheyLookAlike()
    ensures Printable(HOST_WITH_AT) && HOST_WITH_AT != USER_WITH_AT
    ensures Print(HOST_WITH_AT) == Print(USER_WITH_AT) == "user@corp@h"
  {
    assert "user" + "@" + "corp@h" == "user@corp@h" == "user@corp" + "@" + "h";
  }

  /** Deleting other policies leaves the policy of the second in place when the first is imported. */
  lemma LookalikePolicySurvives(o: Options, doc: Document, after: map<SourceInfo, Policy>, pol: Policy, other: Policy)
    requires o.limit.None? && IsExport(doc, map[HOST_WITH_AT := pol])
    requires IsImport(o, doc, true, map[USER_WITH_AT := other], after)
    ensures after == map[HOST_WITH_AT := pol, USER_WITH_AT := other]
  {
    TheyLookAlike();
    hide Print, Printable, IsExport, IsImport;
    var exported: map<SourceInfo, Policy> := map[HOST_WITH_AT := pol];
    var before: map<SourceInfo, Policy> := map[USER_WITH_AT := other];
    ImportedTarget(o, doc, exported, true, before, after, HOST_WITH_AT);
    forall t | t !in exported
      ensures t in after <==> t == USER_WITH_AT
      ensures t in after ==> after[t] == before[t]
    {
      ImportedTarget(o, doc, exported, true, before, after, t);
    }
  }
}
