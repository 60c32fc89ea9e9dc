/**
 * Concrete runs of the analysis and the policy on one-volume databases,
 * with a parser that knows two volume names under two prefixes.
 */
module Scenarios {
  import opened Wrappers
  import opened Volumes
  import opened Database
  import opened FilelistProcessor
  import opened Reconciliation

  const Name: string := "d-20230101.zip"
  const OtherName: string := "other-20230101.zip"

  /** A parser that accepts `Name` under prefix "d" and `OtherName` under
      prefix "other", both declaring `size`. */
  function Parser(size: int): string -> Option<Descriptor>
  {
    n => if n == Name then Some(Descriptor("d", Name, size))
         else if n == OtherName then Some(Descriptor("other", OtherName, size))
         else None
  }

  /** A database tracking `Name` alone, with size 100. */
  function OneRecord(state: RemoteVolumeState): (st: Store)
    ensures st.WellFormed()
  {
    Store(map[Name := RemoteVolumeEntry(Name, state, 100, "h")], [Name])
  }

  lemma RunOne(s: PassState, e: RemoteVolumeEntry)
    ensures Run(s, [e]) == Visit(s, e)
  {
    assert [e][..0] == [];
  }

  lemma OneRecordEntries(state: RemoteVolumeState)
    ensures OneRecord(state).Entries() == [RemoteVolumeEntry(Name, state, 100, "h")]
  {
  }

  /** A listing of `Name` alone parses to one volume under "d". */
  lemma ListedOnce(size: int)
    ensures ParseFileList([Name], Parser(size)) == [Descriptor("d", Name, size)]
    ensures Lookup([Name], Parser(size), "d") == map[Name := Descriptor("d", Name, size)]
  {
    var parsed := [Descriptor("d", Name, size)];
    assert ParseFileList([Name], Parser(size)) == parsed;
    assert parsed[..0] == [];
  }

  /** A listing that holds exactly the tracked, verified volume: nothing changes. */
  lemma VerifiedAndListedAnalysis()
    ensures Analyze([Name], Parser(100), "d", OneRecord(Verified))
            == Analysis(RemoteAnalysisResult([Descriptor("d", Name, 100)], map[], []), OneRecord(Verified))
  {
    var st := OneRecord(Verified);
    var L := map[Name := Descriptor("d", Name, 100)];
    ListedOnce(100);
    OneRecordEntries(Verified);
    RunOne(PassState(st, L, []), st.records[Name]);
    assert L - {Name} == map[];
  }

  lemma VerifiedAndListedSucceeds(v: Verdict)
    requires Judged(Analyze([Name], Parser(100), "d", OneRecord(Verified)).result, "d", v)
    ensures v == Success
  {
    VerifiedAndListedAnalysis();
  }

  /** An upload that never reached the store: the record is dropped. */
  lemma UnfinishedUploadAnalysis()
    ensures Analyze([], Parser(100), "d", OneRecord(Uploading))
            == Analysis(RemoteAnalysisResult([], map[], []), Store(map[], []))
  {
    var st := OneRecord(Uploading);
    var none: map<string, Descriptor> := map[];
    OneRecordEntries(Uploading);
    RunOne(PassState(st, none, []), st.records[Name]);
    assert none - {Name} == none;
    assert st.records - {Name} == map[];
  }

  /** Dropping an unfinished upload is a repair, not a failure. */
  lemma UnfinishedUploadSucceeds(v: Verdict)
    requires Judged(Analyze([], Parser(100), "d", OneRecord(Uploading)).result, "d", v)
    ensures v == Success
  {
    UnfinishedUploadAnalysis();
  }

  /** A verified volume gone from the store: the record is kept and missing. */
  lemma VerifiedButGoneAnalysis()
    ensures Analyze([], Parser(100), "d", OneRecord(Verified))
            == Analysis(RemoteAnalysisResult([], map[], [RemoteVolumeEntry(Name, Verified, 100, "h")]), OneRecord(Verified))
  {
    var st := OneRecord(Verified);
    var none: map<string, Descriptor> := map[];
    OneRecordEntries(Verified);
    RunOne(PassState(st, none, []), st.records[Name]);
    assert none - {Name} == none;
  }

  /** It fails as missing, without a prefix hint since the listing shows no
      prefix at all. */
  lemma VerifiedButGoneIsMissing(v: Verdict)
    requires Judged(Analyze([], Parser(100), "d", OneRecord(Verified)).result, "d", v)
    ensures v == Failure(MissingFiles(1, None))
  {
    VerifiedButGoneAnalysis();
    var empty: seq<Descriptor> := [];
    assert DistinctPrefixes(empty) == [];
  }

  /** A listed volume the database does not track fails as extra. */
  lemma UntrackedVolumeIsExtra(v: Verdict)
    requires Judged(Analyze([Name], Parser(100), "d", Store(map[], [])).result, "d", v)
    ensures v == Failure(ExtraFiles(1))
  {
    ListedOnce(100);
    assert Store(map[], []).Entries() == [];
  }

  /** The other backup's volume parses, and none of it is under "d". */
  lemma OtherListingParsed()
    ensures ParseFileList([OtherName], Parser(100)) == [Descriptor("other", OtherName, 100)]
    ensures Lookup([OtherName], Parser(100), "d") == map[]
  {
    var parsed := [Descriptor("other", OtherName, 100)];
    assert ParseFileList([OtherName], Parser(100)) == parsed;
    assert parsed[..0] == [];
  }

  /** Only another backup's volume is listed: the tracked one is missing. */
  lemma WrongPrefixAnalysis()
    ensures Analyze([OtherName], Parser(100), "d", OneRecord(Verified)).result
            == RemoteAnalysisResult([Descriptor("other", OtherName, 100)], map[], [RemoteVolumeEntry(Name, Verified, 100, "h")])
  {
    var st := OneRecord(Verified);
    var none: map<string, Descriptor> := map[];
    OtherListingParsed();
    OneRecordEntries(Verified);
    RunOne(PassState(st, none, []), st.records[Name]);
    assert none - {Name} == none;
  }

  /** Missing volumes while the listing shows only another backup's prefix:
      the failure names the prefixes found. */
  lemma WrongPrefixHinted(v: Verdict)
    requires Judged(Analyze([OtherName], Parser(100), "d", OneRecord(Verified)).result, "d", v)
    ensures v == Failure(MissingFiles(1, Some(["other"])))
  {
    WrongPrefixAnalysis();
    var parsed := [Descriptor("other", OtherName, 100)];
    assert parsed[..0] == [];
    assert DistinctPrefixes(parsed) == ["other"];
  }

  /** A listed volume whose declared size differs from the tracked one is
      still promoted to Verified, keeping the tracked size: the size clause
      of the removal condition never applies. */
  lemma SizeMismatchAnalysis()
    ensures Analyze([Name], Parser(50), "d", OneRecord(Uploaded))
            == Analysis(RemoteAnalysisResult([Descriptor("d", Name, 50)], map[], []), OneRecord(Verified))
  {
    var st := OneRecord(Uploaded);
    var L := map[Name := Descriptor("d", Name, 50)];
    ListedOnce(50);
    OneRecordEntries(Uploaded);
    RunOne(PassState(st, L, []), st.records[Name]);
    assert L - {Name} == map[];
    assert st.records[Name := RemoteVolumeEntry(Name, Verified, 100, "h")] == OneRecord(Verified).records;
  }

  /** The mismatch is no failure either. */
  lemma SizeMismatchSucceeds(v: Verdict)
    requires Judged(Analyze([Name], Parser(50), "d", OneRecord(Uploaded)).result, "d", v)
    ensures v == Success
  {
    SizeMismatchAnalysis();
  }
}
