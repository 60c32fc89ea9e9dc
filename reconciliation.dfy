/**
 * What the analysis pass amounts to, in closed form, and the properties of
 * the reconciliation stated on it: which tracked records are dropped, which
 * are promoted to Verified, which are reported missing, which remote volumes
 * are reported extra, and that a second pass over the same listing finds
 * nothing more to repair.
 */
module Reconciliation {
  import opened Wrappers
  import opened Volumes
  import opened Database
  import opened FilelistProcessor

  // ---------------------------------------------------------------------------
  // Closed form of the pass

  /** The record stays in the database after the pass, given the lookup `L`. */
  predicate Kept(e: RemoteVolumeEntry, L: map<string, Descriptor>)
  {
    e.state == Deleted || (Claims(e) && (e.name in L || !InFlight(e.state)))
  }

  /** The record as the pass leaves it: matched records are Verified. */
  function Resolved(e: RemoteVolumeEntry, L: map<string, Descriptor>): RemoteVolumeEntry
  {
    if Claims(e) && e.name in L then e.(state := Verified) else e
  }

  /** The record is reported missing. */
  predicate IsMissing(e: RemoteVolumeEntry, L: map<string, Descriptor>)
  {
    Claims(e) && !InFlight(e.state) && e.name !in L
  }

  /** The missing records of `es`, in the order of `es`. */
  function MissingOf(es: seq<RemoteVolumeEntry>, L: map<string, Descriptor>): (r: seq<RemoteVolumeEntry>)
    ensures forall e :: e in r <==> e in es && IsMissing(e, L)
  {
    if es == [] then []
    else (if IsMissing(es[0], L) then [es[0]] else []) + MissingOf(es[1..], L)
  }

  /** The names enumerated before position `k`. */
  ghost function Done(o: seq<string>, k: nat): set<string>
    requires k <= |o|
  {
    set n | n in o[..k]
  }

  /** The database once the records named in `done` have been processed. */
  ghost function Settled(st: Store, L: map<string, Descriptor>, done: set<string>): Store
  {
    var recs := map n | n in st.records && (n !in done || Kept(st.records[n], L))
                      :: if n in done then Resolved(st.records[n], L) else st.records[n];
    Store(recs, Restrict(st.order, recs.Keys))
  }

  /** The names in `done` whose records take part in matching: the pass
      removes exactly these from the lookup. */
  ghost function Claimed(st: Store, done: set<string>): set<string>
  {
    set n | n in done && n in st.records && Claims(st.records[n])
  }

  lemma TakeSnoc<T>(s: seq<T>, k: nat)
    requires 0 < k <= |s|
    ensures s[..k] == s[..k - 1] + [s[k - 1]]
  {
  }

  lemma {:induction false} MissingOfSnoc(es: seq<RemoteVolumeEntry>, e: RemoteVolumeEntry, L: map<string, Descriptor>)
    ensures MissingOf(es + [e], L) == MissingOf(es, L) + (if IsMissing(e, L) then [e] else [])
  {
    var tail := if IsMissing(e, L) then [e] else [];
    if es == [] {
      assert es + [e] == [e] && [e][1..] == [];
      assert MissingOf([e], L) == tail + [];
    } else {
      var head := if IsMissing(es[0], L) then [es[0]] else [];
      assert (es + [e])[0] == es[0];
      assert (es + [e])[1..] == es[1..] + [e];
      MissingOfSnoc(es[1..], e, L);
      calc {
        MissingOf(es + [e], L);
        head + MissingOf(es[1..] + [e], L);
        head + (MissingOf(es[1..], L) + tail);
        (head + MissingOf(es[1..], L)) + tail;
        MissingOf(es, L) + tail;
      }
    }
  }

  /** Settling one more record that the pass drops removes it. */
  lemma SettleDropped(st: Store, L: map<string, Descriptor>, done: set<string>, e: RemoteVolumeEntry)
    requires e.name in st.records && st.records[e.name] == e && e.name !in done && !Kept(e, L)
    ensures Settled(st, L, done + {e.name}) == Settled(st, L, done).Remove(e.name)
  {
    var before := Settled(st, L, done);
    var after := Settled(st, L, done + {e.name});
    assert after.records == before.records - {e.name};
    WithoutRestrict(st.order, before.records.Keys, e.name);
  }

  /** Settling one more record that the pass keeps resolves it in place. */
  lemma SettleKept(st: Store, L: map<string, Descriptor>, done: set<string>, e: RemoteVolumeEntry)
    requires e.name in st.records && st.records[e.name] == e && e.name !in done && Kept(e, L)
    ensures var before := Settled(st, L, done);
            && e.name in before.records
            && Settled(st, L, done + {e.name}) == Store(before.records[e.name := Resolved(e, L)], before.order)
  {
    var before := Settled(st, L, done);
    var after := Settled(st, L, done + {e.name});
    assert after.records == before.records[e.name := Resolved(e, L)];
    assert after.records.Keys == before.records.Keys;
  }

  /** Processing one more record claims its name exactly when it takes part
      in matching. */
  lemma ClaimOne(st: Store, done: set<string>, e: RemoteVolumeEntry)
    requires e.name in st.records && st.records[e.name] == e
    ensures Claimed(st, done + {e.name}) == if Claims(e) then Claimed(st, done) + {e.name} else Claimed(st, done)
  {
  }

  /** One step of the pass on a record not yet processed moves it from the
      unprocessed part to the settled part. */
  lemma VisitSettles(st: Store, L: map<string, Descriptor>, done: set<string>,
                     missing: seq<RemoteVolumeEntry>, e: RemoteVolumeEntry)
    requires e.name in st.records && st.records[e.name] == e && e.name !in done
    ensures Visit(PassState(Settled(st, L, done), L - Claimed(st, done), missing), e)
            == PassState(Settled(st, L, done + {e.name}),
                         L - Claimed(st, done + {e.name}),
                         missing + (if IsMissing(e, L) then [e] else []))
  {
    ClaimOne(st, done, e);
    if Kept(e, L) {
      SettleKept(st, L, done, e);
    } else {
      SettleDropped(st, L, done, e);
    }
  }

  /** After the first `k` records, the pass has settled exactly those records,
      drained exactly their claimed names from the lookup and collected
      exactly their missing records. */
  lemma {:induction false} RunSettles(st: Store, L: map<string, Descriptor>, es: seq<RemoteVolumeEntry>, k: nat)
    requires |es| == |st.order| && k <= |es| && Distinct(st.order)
    requires forall i :: 0 <= i < |es| ==>
               st.order[i] in st.records && es[i] == st.records[st.order[i]] && es[i].name == st.order[i]
    requires Settled(st, L, {}) == st
    ensures Run(PassState(st, L, []), es[..k])
            == PassState(Settled(st, L, Done(st.order, k)),
                         L - Claimed(st, Done(st.order, k)),
                         MissingOf(es[..k], L))
  {
    if k == 0 {
      assert es[..0] == [];
      assert st.order[..0] == [];
      assert Done(st.order, 0) == {};
      assert Claimed(st, {}) == {};
    } else {
      var init := PassState(st, L, []);
      var e := es[k - 1];
      RunSettles(st, L, es, k - 1);
      assert es[..k][..k - 1] == es[..k - 1];
      assert Run(init, es[..k]) == Visit(Run(init, es[..k - 1]), e);
      DoneStep(st.order, k);
      TakeSnoc(es, k);
      MissingOfSnoc(es[..k - 1], e, L);
      VisitSettles(st, L, Done(st.order, k - 1), MissingOf(es[..k - 1], L), e);
    }
  }

  /** Before any record is processed, nothing is settled. */
  lemma SettledNothing(st: Store, L: map<string, Descriptor>)
    requires st.WellFormed()
    ensures Settled(st, L, {}) == st
  {
    assert Settled(st, L, {}).records == st.records;
    RestrictAll(st.order, st.records.Keys);
  }

  /** Enumerating one more name adds that name, which was not yet done. */
  lemma DoneStep(o: seq<string>, k: nat)
    requires Distinct(o) && 0 < k <= |o|
    ensures Done(o, k) == Done(o, k - 1) + {o[k - 1]}
    ensures o[k - 1] !in Done(o, k - 1)
  {
    TakeSnoc(o, k);
    assert forall j :: 0 <= j < k - 1 ==> o[j] != o[k - 1];
  }

  /** The analysis in closed form. */
  lemma AnalyzeIsSettled(listing: seq<string>, parse: string -> Option<Descriptor>, prefix: string, st: Store)
    requires st.WellFormed()
    ensures var a := Analyze(listing, parse, prefix, st);
            var L := Lookup(listing, parse, prefix);
            && a.result.parsedVolumes == ParseFileList(listing, parse)
            && a.store == Settled(st, L, st.records.Keys)
            && a.result.extraVolumes == L - Claimed(st, st.records.Keys)
            && a.result.missingVolumes == MissingOf(st.Entries(), L)
  {
    var L := Lookup(listing, parse, prefix);
    var es := st.Entries();
    SettledNothing(st, L);
    RunSettles(st, L, es, |st.order|);
    assert es[..|st.order|] == es;
    DoneAll(st);
  }

  /** Once every enumerated name is processed, every tracked name is. */
  lemma DoneAll(st: Store)
    requires st.WellFormed()
    ensures Done(st.order, |st.order|) == st.records.Keys
  {
    assert st.order[..|st.order|] == st.order;
  }

  // ---------------------------------------------------------------------------
  // Counting missing records by name

  /** How many entries of `es` are named `n`. */
  function CountNamed(es: seq<RemoteVolumeEntry>, n: string): nat
  {
    if es == [] then 0 else (if es[0].name == n then 1 else 0) + CountNamed(es[1..], n)
  }

  lemma {:induction false} CountNamedNone(es: seq<RemoteVolumeEntry>, n: string)
    requires forall e :: e in es ==> e.name != n
    ensures CountNamed(es, n) == 0
  {
    if es != [] {
      assert es[0] in es;
      assert forall e :: e in es[1..] ==> e in es;
      CountNamedNone(es[1..], n);
    }
  }

  /** With distinct names, the record at position `i` is counted once among
      the missing records if it is missing, and not at all otherwise. */
  lemma {:induction false} CountMissingAt(es: seq<RemoteVolumeEntry>, L: map<string, Descriptor>, i: nat)
    requires i < |es|
    requires forall a, b :: 0 <= a < b < |es| ==> es[a].name != es[b].name
    ensures CountNamed(MissingOf(es, L), es[i].name) == if IsMissing(es[i], L) then 1 else 0
  {
    var n := es[i].name;
    var head := if IsMissing(es[0], L) then [es[0]] else [];
    var rest := MissingOf(es[1..], L);
    assert MissingOf(es, L) == head + rest;
    if i == 0 {
      forall e | e in rest ensures e.name != n {
        var b :| 0 <= b < |es[1..]| && es[1..][b] == e;
        assert es[b + 1] == e;
      }
      CountNamedNone(rest, n);
    } else {
      CountMissingAt(es[1..], L, i - 1);
      assert es[1..][i - 1] == es[i];
    }
    if IsMissing(es[0], L) {
      assert (head + rest)[0] == es[0] && (head + rest)[1..] == rest;
    } else {
      assert head + rest == rest;
    }
  }

  /** The record named `n` is counted `c` times among the missing volumes. */
  lemma MissingCount(listing: seq<string>, parse: string -> Option<Descriptor>, prefix: string, st: Store, n: string)
    requires st.WellFormed() && n in st.records
    ensures CountNamed(Analyze(listing, parse, prefix, st).result.missingVolumes, n)
            == if IsMissing(st.records[n], Lookup(listing, parse, prefix)) then 1 else 0
  {
    AnalyzeIsSettled(listing, parse, prefix, st);
    var es := st.Entries();
    st.EntriesHaveDistinctNames();
    var i :| 0 <= i < |st.order| && st.order[i] == n;
    CountMissingAt(es, Lookup(listing, parse, prefix), i);
  }

  // ---------------------------------------------------------------------------
  // What the pass does to each tracked record

  /** A Deleted record is skipped: it stays as it was and is never missing. */
  lemma DeletedRecordUntouched(listing: seq<string>, parse: string -> Option<Descriptor>, prefix: string, st: Store, n: string)
    requires st.WellFormed() && n in st.records && st.records[n].state == Deleted
    ensures var a := Analyze(listing, parse, prefix, st);
            && n in a.store.records && a.store.records[n] == st.records[n]
            && CountNamed(a.result.missingVolumes, n) == 0
  {
    AnalyzeIsSettled(listing, parse, prefix, st);
    MissingCount(listing, parse, prefix, st, n);
  }

  /** A Temporary record is removed, whatever the listing holds. */
  lemma TemporaryRecordRemoved(listing: seq<string>, parse: string -> Option<Descriptor>, prefix: string, st: Store, n: string)
    requires st.WellFormed() && n in st.records && st.records[n].state == Temporary
    ensures var a := Analyze(listing, parse, prefix, st);
            && n !in a.store.records
            && CountNamed(a.result.missingVolumes, n) == 0
  {
    AnalyzeIsSettled(listing, parse, prefix, st);
    MissingCount(listing, parse, prefix, st, n);
  }

  /** A matching record with no remote volume of its name under the prefix:
      removed if an upload or delete was in flight, otherwise kept as it was
      and reported missing exactly once. Sizes play no part. */
  lemma UnmatchedRecordResolved(listing: seq<string>, parse: string -> Option<Descriptor>, prefix: string, st: Store, n: string)
    requires st.WellFormed() && n in st.records && Claims(st.records[n])
    requires n !in Lookup(listing, parse, prefix)
    ensures var a := Analyze(listing, parse, prefix, st);
            var e := st.records[n];
            && (InFlight(e.state) ==> n !in a.store.records && CountNamed(a.result.missingVolumes, n) == 0)
            && (!InFlight(e.state) ==>
                  && n in a.store.records && a.store.records[n] == e
                  && e in a.result.missingVolumes && CountNamed(a.result.missingVolumes, n) == 1)
  {
    AnalyzeIsSettled(listing, parse, prefix, st);
    MissingCount(listing, parse, prefix, st, n);
    var i :| 0 <= i < |st.order| && st.order[i] == n;
    assert st.Entries()[i] == st.records[n];
  }

  /** On the branch where the name is not in the lookup, the size clause of
      the removal condition cannot hold. */
  lemma SizeClauseNeverFires(lookup: map<string, Descriptor>, n: string, size: int)
    requires n !in lookup
    ensures !SizeMismatch(TryGetValue(lookup, n), size)
  {
  }

  /** A matching record whose name is listed under the prefix ends Verified
      with its own size and hash, whatever size the listing declares; a
      record already Verified is unchanged; neither is missing. */
  lemma MatchedRecordVerified(listing: seq<string>, parse: string -> Option<Descriptor>, prefix: string, st: Store, n: string)
    requires st.WellFormed() && n in st.records && Claims(st.records[n])
    requires n in Lookup(listing, parse, prefix)
    ensures var a := Analyze(listing, parse, prefix, st);
            var e := st.records[n];
            && n in a.store.records
            && a.store.records[n] == RemoteVolumeEntry(n, Verified, e.size, e.hash)
            && (e.state == Verified ==> a.store.records[n] == e)
            && CountNamed(a.result.missingVolumes, n) == 0
  {
    AnalyzeIsSettled(listing, parse, prefix, st);
    MissingCount(listing, parse, prefix, st, n);
  }

  // ---------------------------------------------------------------------------
  // What the pass reports

  /** The parsed volumes are the parser's results for the listed names, any
      prefix, one per accepted name in listing order (see
      `ParseFileListAppend` and `ParseFileListOne`). */
  lemma ParsedVolumesExact(listing: seq<string>, parse: string -> Option<Descriptor>, prefix: string, st: Store)
    requires st.WellFormed()
    ensures var parsed := Analyze(listing, parse, prefix, st).result.parsedVolumes;
            && (forall i :: 0 <= i < |listing| ==>
                  parsed == ParseFileList(listing[..i], parse)
                            + ParseOne(listing[i], parse)
                            + ParseFileList(listing[i + 1..], parse))
            && (forall n :: n in listing && parse(n).Some? ==> parse(n).value in parsed)
            && (forall d :: d in parsed ==> exists n :: n in listing && parse(n) == Some(d))
  {
    AnalyzeIsSettled(listing, parse, prefix, st);
    ParsedFromListing(listing, parse);
    forall i | 0 <= i < |listing|
      ensures ParseFileList(listing, parse) == ParseFileList(listing[..i], parse)
                + ParseOne(listing[i], parse)
                + ParseFileList(listing[i + 1..], parse)
    {
      ParseAround(listing, parse, i);
    }
  }

  /** The extra volumes are the listed volumes under the prefix whose name no
      matching record (neither Deleted nor Temporary) claims; each is filed
      under its own name, once, and carries the prefix. */
  lemma ExtraVolumesExact(listing: seq<string>, parse: string -> Option<Descriptor>, prefix: string, st: Store)
    requires st.WellFormed()
    ensures var a := Analyze(listing, parse, prefix, st);
            var L := Lookup(listing, parse, prefix);
            var extra := a.result.extraVolumes;
            && (forall k :: k in extra <==> k in L && (k !in st.records || !Claims(st.records[k])))
            && (forall k :: k in extra ==> extra[k] == L[k] && extra[k].name == k && extra[k].prefix == prefix)
            && (forall k :: k in extra ==> extra[k] in a.result.parsedVolumes)
  {
    AnalyzeIsSettled(listing, parse, prefix, st);
  }

  /** A name listed under the prefix whose record is Temporary or Deleted is
      still reported extra: only matching records drain the lookup. */
  lemma UnclaimedMatchReportedExtra(listing: seq<string>, parse: string -> Option<Descriptor>, prefix: string, st: Store, n: string)
    requires st.WellFormed() && n in st.records && !Claims(st.records[n])
    requires n in Lookup(listing, parse, prefix)
    ensures n in Analyze(listing, parse, prefix, st).result.extraVolumes
  {
    ExtraVolumesExact(listing, parse, prefix, st);
  }

  // ---------------------------------------------------------------------------
  // The database afterwards, and a second pass

  /** The pass creates no record, leaves no Temporary one, keeps the
      enumeration order of the survivors, and changes a surviving record at
      most by promoting it to Verified. */
  lemma StoreAfterAnalysis(listing: seq<string>, parse: string -> Option<Descriptor>, prefix: string, st: Store)
    requires st.WellFormed()
    ensures var after := Analyze(listing, parse, prefix, st).store;
            && after.WellFormed()
            && after.records.Keys <= st.records.Keys
            && after.order == Restrict(st.order, after.records.Keys)
            && (forall k :: k in after.records ==> after.records[k].state != Temporary)
            && (forall k :: k in after.records ==>
                  after.records[k] == st.records[k] || after.records[k] == st.records[k].(state := Verified))
  {
    AnalyzeIsSettled(listing, parse, prefix, st);
    SettledWellFormed(st, Lookup(listing, parse, prefix));
  }

  lemma SettledWellFormed(st: Store, L: map<string, Descriptor>)
    requires st.WellFormed()
    ensures Settled(st, L, st.records.Keys).WellFormed()
  {
    var after := Settled(st, L, st.records.Keys);
    RestrictDistinct(st.order, after.records.Keys);
    forall k | k in after.records ensures after.records[k].name == k {
      assert st.records[k].name == k;
    }
  }

  lemma {:induction false} RestrictDistinct(o: seq<string>, keys: set<string>)
    requires Distinct(o)
    ensures Distinct(Restrict(o, keys))
  {
    if o != [] {
      RestrictDistinct(o[1..], keys);
      assert o[0] !in o[1..];
    }
  }

  lemma {:induction false} MissingOfRestrict(o: seq<string>, recs: map<string, RemoteVolumeEntry>,
                                             recs': map<string, RemoteVolumeEntry>, L: map<string, Descriptor>)
    requires forall x :: x in o ==> x in recs
    requires forall x :: x in recs' ==> x in recs && IsMissing(recs'[x], L) == IsMissing(recs[x], L)
    requires forall x :: x in recs' && IsMissing(recs[x], L) ==> recs'[x] == recs[x]
    requires forall x :: x in recs && x !in recs' ==> !IsMissing(recs[x], L)
    ensures MissingOf(EntriesOf(Restrict(o, recs'.Keys), recs'), L) == MissingOf(EntriesOf(o, recs), L)
  {
    if o != [] {
      MissingOfRestrict(o[1..], recs, recs', L);
      var rest := Restrict(o[1..], recs'.Keys);
      var es := EntriesOf(o, recs);
      assert es == [recs[o[0]]] + EntriesOf(o[1..], recs);
      assert es[1..] == EntriesOf(o[1..], recs);
      if o[0] in recs'.Keys {
        var es' := EntriesOf([o[0]] + rest, recs');
        assert ([o[0]] + rest)[1..] == rest;
        assert es' == [recs'[o[0]]] + EntriesOf(rest, recs');
        assert es'[1..] == EntriesOf(rest, recs');
      }
    }
  }

  /** The settled store is its own settled form. */
  lemma SettledIsFixed(st: Store, L: map<string, Descriptor>)
    ensures var st1 := Settled(st, L, st.records.Keys);
            Settled(st1, L, st1.records.Keys) == st1
  {
    var st1 := Settled(st, L, st.records.Keys);
    assert Settled(st1, L, st1.records.Keys).records == st1.records;
    RestrictAll(st1.order, st1.records.Keys);
    RestrictTwice(st.order, st1.records.Keys);
  }

  lemma {:induction false} RestrictTwice(o: seq<string>, keys: set<string>)
    ensures Restrict(Restrict(o, keys), keys) == Restrict(o, keys)
  {
    RestrictAll(Restrict(o, keys), keys);
  }

  /** Settling drops only names that no matching record in the lookup claims. */
  lemma ClaimedAfterSettled(st: Store, L: map<string, Descriptor>)
    requires st.WellFormed()
    ensures var st1 := Settled(st, L, st.records.Keys);
            L - Claimed(st1, st1.records.Keys) == L - Claimed(st, st.records.Keys)
  {
    var st1 := Settled(st, L, st.records.Keys);
    forall k | k in L
      ensures k in Claimed(st1, st1.records.Keys) <==> k in Claimed(st, st.records.Keys)
    {
      if k in st.records {
        assert st.records[k].name == k;
      }
    }
  }

  /** Settling keeps every missing record as it was, in order. */
  lemma MissingAfterSettled(st: Store, L: map<string, Descriptor>)
    requires st.WellFormed() && Settled(st, L, st.records.Keys).WellFormed()
    ensures MissingOf(Settled(st, L, st.records.Keys).Entries(), L) == MissingOf(st.Entries(), L)
  {
    var st1 := Settled(st, L, st.records.Keys);
    MissingOfRestrict(st.order, st.records, st1.records, L);
  }

  /** A second pass over the same listing finds the database as the first
      pass left it and changes nothing: the same store, the same extra
      volumes, the same missing volumes. */
  lemma AnalysisIsStable(listing: seq<string>, parse: string -> Option<Descriptor>, prefix: string, st: Store)
    requires st.WellFormed()
    ensures var a1 := Analyze(listing, parse, prefix, st);
            && a1.store.WellFormed()
            && var a2 := Analyze(listing, parse, prefix, a1.store);
               a2.store == a1.store && a2.result == a1.result
  {
    var L := Lookup(listing, parse, prefix);
    AnalyzeIsSettled(listing, parse, prefix, st);
    StoreAfterAnalysis(listing, parse, prefix, st);
    AnalyzeIsSettled(listing, parse, prefix, Analyze(listing, parse, prefix, st).store);
    SettledIsFixed(st, L);
    ClaimedAfterSettled(st, L);
    MissingAfterSettled(st, L);
  }
}
