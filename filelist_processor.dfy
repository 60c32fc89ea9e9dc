/**
 * The remote-versus-local reconciliation of the file-list processor:
 * parsing of the remote listing, the analysis pass that compares it with the
 * tracked remote volumes of the local database (repairing what can be
 * repaired in place), and the policy that turns the analysis into a verdict.
 *
 * The volume-name parser is a parameter `parse`; the backend listing is the
 * sequence of raw names it returned.
 */
module FilelistProcessor {
  import opened Wrappers
  import opened Volumes
  import opened Database

  // ---------------------------------------------------------------------------
  // Parsing the listing

  /** The parsed remote volumes: every name the parser accepts, in listing
      order, under any prefix; names the parser rejects are dropped. */
  function ParseFileList(listing: seq<string>, parse: string -> Option<Descriptor>): (r: seq<Descriptor>)
    ensures |r| <= |listing|
    ensures forall n :: n in listing && parse(n).Some? ==> parse(n).value in r
  {
    if listing == [] then []
    else
      var rest := ParseFileList(listing[1..], parse);
      match parse(listing[0])
      case None => rest
      case Some(d) => [d] + rest
  }

  /** Every parsed volume is the parser's result for some listed name. */
  lemma {:induction false} ParsedFromListing(listing: seq<string>, parse: string -> Option<Descriptor>)
    ensures forall d :: d in ParseFileList(listing, parse) ==> exists n :: n in listing && parse(n) == Some(d)
  {
    if listing != [] {
      ParsedFromListing(listing[1..], parse);
      forall d | d in ParseFileList(listing, parse) ensures exists n :: n in listing && parse(n) == Some(d) {
        if d !in ParseFileList(listing[1..], parse) {
          assert parse(listing[0]) == Some(d);
        } else {
          var n :| n in listing[1..] && parse(n) == Some(d);
          assert n in listing;
        }
      }
    }
  }

  /** The parser's result for one name, as a list of zero or one volumes. */
  function ParseOne(n: string, parse: string -> Option<Descriptor>): seq<Descriptor>
  {
    if parse(n).Some? then [parse(n).value] else []
  }

  /** Parsing a non-empty listing: its first name, then the rest. */
  lemma ParseFileListCons(listing: seq<string>, parse: string -> Option<Descriptor>)
    requires listing != []
    ensures ParseFileList(listing, parse) == ParseOne(listing[0], parse) + ParseFileList(listing[1..], parse)
  {
  }

  /** A single name parses to its descriptor or to nothing. */
  lemma ParseFileListOne(n: string, parse: string -> Option<Descriptor>)
    ensures ParseFileList([n], parse) == ParseOne(n, parse)
  {
    ParseFileListCons([n], parse);
    assert [n][1..] == [];
  }

  /** Parsing keeps listing order and maps each name on its own: a split
      listing parses to the concatenation of its parts. With
      `ParseFileListOne` this fixes the parsed list entry by entry. */
  lemma {:induction false} ParseFileListAppend(a: seq<string>, b: seq<string>, parse: string -> Option<Descriptor>)
    ensures ParseFileList(a + b, parse) == ParseFileList(a, parse) + ParseFileList(b, parse)
  {
    if a == [] {
      assert a + b == b;
    } else {
      var ab := a + b;
      assert ab[0] == a[0] && ab[1..] == a[1..] + b;
      ParseFileListAppend(a[1..], b, parse);
      ParseFileListCons(ab, parse);
      ParseFileListCons(a, parse);
      var h := ParseOne(a[0], parse);
      assert ParseFileList(ab, parse) == h + (ParseFileList(a[1..], parse) + ParseFileList(b, parse));
    }
  }

  /** The parsed list around the `i`th listed name. */
  lemma {:induction false} ParseAround(listing: seq<string>, parse: string -> Option<Descriptor>, i: int)
    requires 0 <= i < |listing|
    ensures ParseFileList(listing, parse)
            == ParseFileList(listing[..i], parse)
               + ParseOne(listing[i], parse)
               + ParseFileList(listing[i + 1..], parse)
  {
    var before, n, after := listing[..i], listing[i], listing[i + 1..];
    var upto := before + [n];
    assert listing == upto + after;
    ParseFileListAppend(upto, after, parse);
    ParseFileListAppend(before, [n], parse);
    ParseFileListOne(n, parse);
  }

  /** The prefixes of `parsed`, each once, in order of first occurrence. */
  function DistinctPrefixes(parsed: seq<Descriptor>): (r: seq<string>)
    ensures Distinct(r)
    ensures forall d :: d in parsed ==> d.prefix in r
    ensures forall p :: p in r ==> exists d :: d in parsed && d.prefix == p
  {
    if parsed == [] then []
    else
      var init := parsed[..|parsed| - 1];
      var last := parsed[|parsed| - 1];
      var rest := DistinctPrefixes(init);
      assert forall d :: d in parsed ==> d in init || d == last;
      assert forall d :: d in init ==> d in parsed;
      if last.prefix in rest then rest else rest + [last.prefix]
  }

  // ---------------------------------------------------------------------------
  // The analysis result

  /** What the analysis reports. `extraVolumes` is the lookup dictionary left
      over after the pass, keyed by volume name. */
  datatype RemoteAnalysisResult = RemoteAnalysisResult(
    parsedVolumes: seq<Descriptor>,
    extraVolumes: map<string, Descriptor>,
    missingVolumes: seq<RemoteVolumeEntry>)
  {
    function BackupPrefixes(): seq<string>
    {
      DistinctPrefixes(parsedVolumes)
    }
  }

  // ---------------------------------------------------------------------------
  // The lookup built from the listing

  /** Index `j` holds the last volume in `parsed` under `prefix` named `k`. */
  ghost predicate LastClaim(parsed: seq<Descriptor>, prefix: string, k: string, j: int)
  {
    && 0 <= j < |parsed|
    && parsed[j].prefix == prefix && parsed[j].name == k
    && forall j' :: j < j' < |parsed| ==> parsed[j'].prefix != prefix || parsed[j'].name != k
  }

  /** The name-to-volume lookup of the parsed volumes under `prefix`, built in
      listing order so that a later volume of the same name replaces an
      earlier one. */
  function BuildLookup(parsed: seq<Descriptor>, prefix: string): (m: map<string, Descriptor>)
    ensures forall d :: d in parsed && d.prefix == prefix ==> d.name in m
    ensures forall k :: k in m ==> m[k].name == k && m[k].prefix == prefix && m[k] in parsed
  {
    if parsed == [] then map[]
    else
      var d := parsed[|parsed| - 1];
      var m := BuildLookup(parsed[..|parsed| - 1], prefix);
      assert forall x :: x in parsed ==> x in parsed[..|parsed| - 1] || x == d;
      if d.prefix == prefix then m[d.name := d] else m
  }

  /** Of several volumes with the same name under `prefix`, the lookup keeps
      the one listed last. */
  lemma {:induction false} LookupKeepsLast(parsed: seq<Descriptor>, prefix: string, j: int)
    requires 0 <= j < |parsed| && LastClaim(parsed, prefix, parsed[j].name, j)
    ensures var m := BuildLookup(parsed, prefix);
            parsed[j].name in m && m[parsed[j].name] == parsed[j]
  {
    var init := parsed[..|parsed| - 1];
    if j < |parsed| - 1 {
      LookupKeepsLast(init, prefix, j);
    }
  }

  /** The lookup the analysis starts from. */
  function Lookup(listing: seq<string>, parse: string -> Option<Descriptor>, prefix: string): map<string, Descriptor>
  {
    BuildLookup(ParseFileList(listing, parse), prefix)
  }

  /** A listing none of whose names parses to a volume named `k` under
      `prefix` parses to no such volume. */
  lemma {:induction false} ParsedAvoids(listing: seq<string>, parse: string -> Option<Descriptor>, prefix: string, k: string)
    requires forall t :: 0 <= t < |listing| && parse(listing[t]).Some? ==>
               parse(listing[t]).value.prefix != prefix || parse(listing[t]).value.name != k
    ensures forall x :: x in ParseFileList(listing, parse) ==> x.prefix != prefix || x.name != k
  {
    if listing != [] {
      ParsedAvoids(listing[1..], parse, prefix, k);
    }
  }

  /** In terms of the listing: the volume of the last listed name that parses
      to a volume of a given name under `prefix` is the one the lookup holds. */
  lemma {:induction false} LookupKeepsLastListed(listing: seq<string>, parse: string -> Option<Descriptor>, prefix: string, i: int)
    requires 0 <= i < |listing| && parse(listing[i]).Some? && parse(listing[i]).value.prefix == prefix
    requires forall i' :: i < i' < |listing| && parse(listing[i']).Some? ==>
               parse(listing[i']).value.prefix != prefix || parse(listing[i']).value.name != parse(listing[i]).value.name
    ensures var d := parse(listing[i]).value;
            var m := Lookup(listing, parse, prefix);
            d.name in m && m[d.name] == d
  {
    var d := parse(listing[i]).value;
    var after := listing[i + 1..];
    ParseAround(listing, parse, i);
    var pb, pa := ParseFileList(listing[..i], parse), ParseFileList(after, parse);
    var parsed := ParseFileList(listing, parse);
    assert parsed == pb + [d] + pa;
    forall t | 0 <= t < |after| && parse(after[t]).Some?
      ensures parse(after[t]).value.prefix != prefix || parse(after[t]).value.name != d.name
    {
      assert after[t] == listing[i + 1 + t];
    }
    ParsedAvoids(after, parse, prefix, d.name);
    var j := |pb|;
    forall j' | j < j' < |parsed| ensures parsed[j'].prefix != prefix || parsed[j'].name != d.name {
      assert parsed[j'] == pa[j' - j - 1];
    }
    LookupKeepsLast(parsed, prefix, j);
  }

  // ---------------------------------------------------------------------------
  // One step of the pass over the tracked volumes, and the whole pass

  /** The state the pass carries from record to record: the database, the
      lookup being drained, and the missing list being filled. */
  datatype PassState = PassState(store: Store, lookup: map<string, Descriptor>, missing: seq<RemoteVolumeEntry>)

  /** Dictionary lookup with an out-parameter: `None` stands for the null it leaves. */
  function TryGetValue(lookup: map<string, Descriptor>, name: string): Option<Descriptor>
  {
    if name in lookup then Some(lookup[name]) else None
  }

  /** The size clause of the removal condition: the remote volume is known
      and both sizes are known and differ. */
  predicate SizeMismatch(r: Option<Descriptor>, size: int)
  {
    match r
    case None => false
    case Some(d) => d.size != size && d.size >= 0 && size >= 0
  }

  /** What the pass does with one tracked record `e`. */
  function Visit(s: PassState, e: RemoteVolumeEntry): PassState
  {
    if e.state == Deleted then s
    else if e.state == Temporary then s.(store := s.store.Remove(e.name))
    else
      var r := TryGetValue(s.lookup, e.name);
      var s' :=
        if r.None? then
          if InFlight(e.state) || SizeMismatch(r, e.size) then s.(store := s.store.Remove(e.name))
          else s.(missing := s.missing + [e])
        else if e.state != Verified then s.(store := s.store.Update(e.name, Verified, e.size, e.hash))
        else s;
      s'.(lookup := s'.lookup - {e.name})
  }

  /** The pass over `es` in order. */
  function Run(s: PassState, es: seq<RemoteVolumeEntry>): PassState
    decreases |es|
  {
    if es == [] then s else Visit(Run(s, es[..|es| - 1]), es[|es| - 1])
  }

  /** The outcome of an analysis: the report and the database afterwards. */
  datatype Analysis = Analysis(result: RemoteAnalysisResult, store: Store)

  /** The analysis of `listing` against the database `st`. */
  function Analyze(listing: seq<string>, parse: string -> Option<Descriptor>, prefix: string, st: Store): Analysis
    requires st.WellFormed()
  {
    var parsed := ParseFileList(listing, parse);
    var s := Run(PassState(st, BuildLookup(parsed, prefix), []), st.Entries());
    Analysis(RemoteAnalysisResult(parsed, s.lookup, s.missing), s.store)
  }

  /** The loop that fills the lookup dictionary from the parsed listing. */
  method FillLookup(remotelist: seq<Descriptor>, prefix: string) returns (lookup: map<string, Descriptor>)
    ensures lookup == BuildLookup(remotelist, prefix)
  {
    lookup := map[];
    for i := 0 to |remotelist|
      invariant lookup == BuildLookup(remotelist[..i], prefix)
    {
      var s := remotelist[i];
      assert remotelist[..i + 1][..i] == remotelist[..i];
      if s.prefix == prefix {
        lookup := lookup[s.name := s];
      }
    }
    assert remotelist[..|remotelist|] == remotelist;
  }

  /** The analysis pass, run against the database in place. */
  method RemoteListAnalysis(listing: seq<string>, parse: string -> Option<Descriptor>, prefix: string, db: LocalDatabase)
    returns (result: RemoteAnalysisResult)
    requires db.Valid()
    modifies db
    ensures db.Valid()
    ensures var a := Analyze(listing, parse, prefix, old(db.View()));
            result == a.result && db.View() == a.store
  {
    var remotelist := ParseFileList(listing, parse);
    var lookup := FillLookup(remotelist, prefix);
    ghost var start := PassState(db.View(), lookup, []);

    var missing: seq<RemoteVolumeEntry> := [];
    var locallist := db.GetRemoteVolumes();
    for k := 0 to |locallist|
      invariant db.Valid()
      invariant PassState(db.View(), lookup, missing) == Run(start, locallist[..k])
    {
      var i := locallist[k];
      assert locallist[..k + 1][..k] == locallist[..k];
      if i.state == Deleted {
        continue;
      }
      if i.state == Temporary {
        db.RemoveRemoteVolume(i.name);
      } else {
        var r := TryGetValue(lookup, i.name);
        if r.None? {
          if InFlight(i.state) || SizeMismatch(r, i.size) {
            db.RemoveRemoteVolume(i.name);
          } else {
            missing := missing + [i];
          }
        } else if i.state != Verified {
          db.UpdateRemoteVolume(i.name, Verified, i.size, i.hash);
        }
        lookup := lookup - {i.name};
      }
    }
    assert locallist[..|locallist|] == locallist;
    result := RemoteAnalysisResult(remotelist, lookup, missing);
  }

  // ---------------------------------------------------------------------------
  // The integrity policy

  /** The failures the policy raises, with the counts they report. */
  datatype IntegrityError =
    | ExtraFiles(count: nat)
    | MissingFiles(count: nat, backupPrefixes: Option<seq<string>>)

  datatype Verdict = Success | Failure(error: IntegrityError)

  /** The verdict `v` on the analysis `tp` is the one the policy promises:
      success exactly when nothing is extra and nothing is missing; extra
      volumes are reported first, with their count, whatever is missing;
      missing volumes only when nothing is extra, with their count and, when
      the listing shows other backup prefixes but not `prefix`, those prefixes. */
  ghost predicate Judged(tp: RemoteAnalysisResult, prefix: string, v: Verdict)
  {
    var extra := |tp.extraVolumes|;
    var missing := |tp.missingVolumes|;
    var prefixes := tp.BackupPrefixes();
    && (v.Success? <==> extra == 0 && missing == 0)
    && (extra > 0 ==> v == Failure(ExtraFiles(extra)))
    && (extra == 0 && missing > 0 ==>
          && v.Failure? && v.error.MissingFiles? && v.error.count == missing
          && (v.error.backupPrefixes.Some? <==> |prefixes| > 0 && prefix !in prefixes)
          && (v.error.backupPrefixes.Some? ==> v.error.backupPrefixes.value == prefixes))
  }

  /** The policy applied to a finished analysis: count what is extra and
      what is missing, then fail on extra volumes before missing ones. */
  method JudgeAnalysis(tp: RemoteAnalysisResult, prefix: string) returns (v: Verdict)
    ensures Judged(tp, prefix, v)
  {
    var extraCount := 0;
    var pending := tp.extraVolumes.Keys;
    while pending != {}
      invariant pending <= tp.extraVolumes.Keys
      invariant extraCount + |pending| == |tp.extraVolumes.Keys|
      decreases |pending|
    {
      var n :| n in pending;
      pending := pending - {n};
      extraCount := extraCount + 1;
    }

    var missingCount := 0;
    for i := 0 to |tp.missingVolumes|
      invariant missingCount == i
    {
      missingCount := missingCount + 1;
    }

    if extraCount > 0 {
      return Failure(ExtraFiles(extraCount));
    }
    if missingCount > 0 {
      var prefixes := tp.BackupPrefixes();
      if prefix !in prefixes && |prefixes| > 0 {
        return Failure(MissingFiles(missingCount, Some(prefixes)));
      } else {
        return Failure(MissingFiles(missingCount, None));
      }
    }
    return Success;
  }

  /** The analysis followed by the policy. The repairs the analysis made stay
      in the database whatever the verdict. */
  method VerifyRemoteList(listing: seq<string>, parse: string -> Option<Descriptor>, prefix: string, db: LocalDatabase)
    returns (v: Verdict)
    requires db.Valid()
    modifies db
    ensures db.Valid()
    ensures var a := Analyze(listing, parse, prefix, old(db.View()));
            db.View() == a.store && Judged(a.result, prefix, v)
  {
    var tp := RemoteListAnalysis(listing, parse, prefix, db);
    v := JudgeAnalysis(tp, prefix);
  }
}
