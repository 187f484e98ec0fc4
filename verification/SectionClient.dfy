/**
 The client's side of a section read: following next_offset from 0 rebuilds the
 section, unless an answer makes no progress or a chunk is redacted.
 */
module SectionClient {
  import opened Wrappers
  import opened Json
  import opened SectionReading

  // ----- what the service hands over -----

  const SECTION_KEYS := {"items", "section", "content", "offset", "next_offset", "total_chars"}

  /** The fields that a section read relies on are not sensitive ones. */
  ghost predicate LeavesSections(sensitive: string -> bool) {
    forall key :: key in SECTION_KEYS ==> !sensitive(key)
  }

  lemma SectionFields(e: Envelope, s: string, offset: nat, end: nat)
    requires offset <= end <= |s|
    ensures var section := Section(e, s, offset, end);
            && Get(section, "content") == Some(Text(s[offset..end]))
            && Get(section, "offset") == Some(Number(offset))
            && Get(section, "next_offset") == Some(Next(end, |s|))
            && Get(section, "total_chars") == Some(Number(|s|))
  {
    var section := Section(e, s, offset, end);
    GetAt(section, "content", 2);
    GetAt(section, "offset", 3);
    GetAt(section, "next_offset", 4);
    GetAt(section, "total_chars", 5);
  }

  lemma {:induction false} StaysAbsent(sensitive: string -> bool, isLocal: string -> bool, fields: seq<Field>, key: string)
    requires Get(fields, key).None?
    ensures Get(SafeFields(sensitive, isLocal, fields), key).None?
  {
    if fields != [] {
      StaysAbsent(sensitive, isLocal, fields[1..], key);
      var rest := SafeFields(sensitive, isLocal, fields[1..]);
      if !sensitive(fields[0].key) {
        var head := Field(fields[0].key, SafeData(sensitive, isLocal, fields[0].value));
        assert ([head] + rest)[1..] == rest;
      }
    }
  }

  /** The record of an answer, with its section in place. */
  function RecordOf(e: Envelope, s: string, offset: nat, end: nat): seq<Field>
    requires offset <= end <= |s|
  {
    Put(Put(e.record, "section", Object(Section(e, s, offset, end))), "payload_complete", Bool(false))
  }

  lemma AnswerFields(e: Envelope, s: string, offset: nat, chunk: nat)
    requires offset <= |s| && offset <= LAST_OFFSET
    ensures var end := Min(|s|, offset + chunk);
            var answer := Answer(e, s, offset, chunk).value;
            && Get(answer, "items") == Some(Array([Object(RecordOf(e, s, offset, end))]))
            && Get(answer, "next_offset") == Some(Next(end, |s|))
            && Get(RecordOf(e, s, offset, end), "section") == Some(Object(Section(e, s, offset, end)))
  {
    var end := Min(|s|, offset + chunk);
    var answer := Answer(e, s, offset, chunk).value;
    GetAt(answer, "items", 2);
    GetAt(answer, "next_offset", 6);
    GetPut(e.record, "section", Object(Section(e, s, offset, end)), "section");
    GetPut(Put(e.record, "section", Object(Section(e, s, offset, end))), "payload_complete", Bool(false), "section");
  }

  lemma AnswerHasNoOtherLists(e: Envelope, s: string, offset: nat, chunk: nat)
    requires offset <= |s| && offset <= LAST_OFFSET
    ensures NoOtherLists(Answer(e, s, offset, chunk).value)
  {
    var answer := Answer(e, s, offset, chunk).value;
    GetNone(answer, "results");
    GetNone(answer, "context");
    GetNone(answer, "events");
    GetNone(answer, "pending_approvals");
  }

  lemma SafeHasNoOtherLists(sensitive: string -> bool, isLocal: string -> bool, fields: seq<Field>)
    requires NoOtherLists(fields)
    ensures NoOtherLists(SafeFields(sensitive, isLocal, fields))
  {
    forall key | key in LISTS && key != "items" ensures Get(SafeFields(sensitive, isLocal, fields), key).None? {
      StaysAbsent(sensitive, isLocal, fields, key);
    }
  }

  lemma SafeSection(sensitive: string -> bool, isLocal: string -> bool, e: Envelope, s: string, offset: nat, end: nat)
    requires offset <= end <= |s| && LeavesSections(sensitive) && !isLocal(s[offset..end])
    ensures var section := SafeFields(sensitive, isLocal, Section(e, s, offset, end));
            && Get(section, "content") == Some(Text(s[offset..end]))
            && Get(section, "offset") == Some(Number(offset))
            && Get(section, "next_offset") == Some(Next(end, |s|))
            && Get(section, "total_chars") == Some(Number(|s|))
  {
    var section := Section(e, s, offset, end);
    SectionFields(e, s, offset, end);
    GetSafe(sensitive, isLocal, section, "content");
    GetSafe(sensitive, isLocal, section, "offset");
    GetSafe(sensitive, isLocal, section, "next_offset");
    GetSafe(sensitive, isLocal, section, "total_chars");
  }

  /** The view of the chunk s[offset..end], wherever the redaction has left the other fields. */
  ghost predicate Views(v: View, s: string, offset: nat, end: nat) {
    offset <= end <= |s| && v.original == s[offset..end] && v.offset == offset && v.total == |s|
  }

  /** Unless the chunk looks like a local path, redaction leaves the section as the service cut it. */
  lemma ServedSection(sensitive: string -> bool, isLocal: string -> bool, e: Envelope, s: string, offset: nat, chunk: nat)
    returns (v: View)
    requires offset <= |s| && offset <= LAST_OFFSET && LeavesSections(sensitive)
    requires !isLocal(s[offset..Min(|s|, offset + chunk)])
    ensures Views(v, s, offset, Min(|s|, offset + chunk))
    ensures IsSectionAnswer(SafeData(sensitive, isLocal, Object(Answer(e, s, offset, chunk).value)), v)
  {
    var end := Min(|s|, offset + chunk);
    var answer, record, section := Answer(e, s, offset, chunk).value, RecordOf(e, s, offset, end), Section(e, s, offset, end);
    AnswerFields(e, s, offset, chunk);
    SafeSection(sensitive, isLocal, e, s, offset, end);
    GetSafe(sensitive, isLocal, answer, "items");
    GetSafe(sensitive, isLocal, answer, "next_offset");
    GetSafe(sensitive, isLocal, record, "section");
    var safeRecord := SafeFields(sensitive, isLocal, record);
    var data := SafeFields(sensitive, isLocal, answer);
    assert [Object(record)][1..] == [];
    assert SafeItems(sensitive, isLocal, [Object(record)]) == [Object(safeRecord)];
    v := View(safeRecord, [], SafeFields(sensitive, isLocal, section), s[offset..end], offset, |s|);
    assert [Object(safeRecord)][1..] == [];
    assert Requested(data) == Some(v);
    AnswerHasNoOtherLists(e, s, offset, chunk);
    SafeHasNoOtherLists(sensitive, isLocal, answer);
  }

  // ----- what arrives -----

  /** How many characters of the chunk survive the fit; None if the section is lost. */
  function KeptLength(data: seq<Field>, v: View, budget: nat): (k: Option<nat>)
    ensures k.Some? ==> k.value <= |v.original|
  {
    var trimmed := Trimmed(data);
    if Size(Object(data)) <= budget || Size(Object(trimmed)) <= budget then Some(|v.original|)
    else
      var longest := LongestFit(trimmed, v, budget, |v.original|);
      if longest.Some? then longest
      else if Size(Object(LastResort(trimmed, v, budget))) <= budget then Some(0) else None
  }

  /** An answer with the first `k` characters of the chunk and the offset behind them. */
  ghost predicate Shows(payload: Json, v: View, k: nat) {
    && k <= |v.original| && SectionIn(payload).Some?
    && SectionIn(payload).value.original == v.original[..k]
    && Get(SectionIn(payload).value.section, "next_offset") == Some(NextAt(v, k))
  }

  lemma SelectedFields(v: View, k: nat)
    requires k <= |v.original|
    ensures Get(Selected(v, k), "content") == Some(Text(v.original[..k]))
    ensures Get(Selected(v, k), "next_offset") == Some(NextAt(v, k))
    ensures Get(Selected(v, k), "total_chars") == Get(v.section, "total_chars")
    ensures Get(Selected(v, k), "offset") == Get(v.section, "offset")
  {
    var content := Put(v.section, "content", Text(v.original[..k]));
    forall key ensures Get(content, key) == if key == "content" then Some(Text(v.original[..k])) else Get(v.section, key) {
      GetPut(v.section, "content", Text(v.original[..k]), key);
    }
    GetPut(content, "next_offset", NextAt(v, k), "content");
    GetPut(content, "next_offset", NextAt(v, k), "next_offset");
    GetPut(content, "next_offset", NextAt(v, k), "total_chars");
    GetPut(content, "next_offset", NextAt(v, k), "offset");
  }

  /** Whatever stands around it, a record cut to `k` characters shows them. */
  lemma RecordShows(fields: seq<Field>, v: View, k: nat, rest: seq<Json>)
    requires k <= |v.original| && Get(fields, "items") == Some(Array([Object(Record(v, k))] + rest))
    requires Get(v.section, "total_chars") == Some(Number(v.total)) && Get(v.section, "offset") == Some(Number(v.offset))
    ensures Shows(Object(fields), v, k)
  {
    SelectedFields(v, k);
    GetPut(v.first, "section", Object(Selected(v, k)), "section");
  }

  lemma CandidateShows(base: seq<Field>, v: View, k: nat)
    requires k <= |v.original|
    requires Get(v.section, "total_chars") == Some(Number(v.total)) && Get(v.section, "offset") == Some(Number(v.offset))
    ensures Shows(Object(Candidate(base, v, k)), v, k)
  {
    var items := Array([Object(Record(v, k))] + v.rest);
    GetPut(base, "items", items, "items");
    GetPut(Put(base, "items", items), "next_offset", NextAt(v, k), "items");
    RecordShows(Candidate(base, v, k), v, k, v.rest);
  }

  lemma UncutShows(data: seq<Field>, v: View)
    requires Regular(data, v)
    ensures Shows(Object(data), v, |v.original|) && Shows(Object(Trimmed(data)), v, |v.original|)
  {
    assert v.original[..|v.original|] == v.original;
    GetTrimmed(data, "items");
    GetTrimmed(data, "offset");
  }

  /** The fitted answer shows as much of the chunk as survives, with an offset that continues it. */
  lemma FittedShows(data: seq<Field>, v: View, budget: nat)
    requires Regular(data, v)
    ensures Keeps(data, v, budget) <==> KeptLength(data, v, budget).Some?
    ensures Keeps(data, v, budget) ==> Shows(FittedAnswer(data, v, budget), v, KeptLength(data, v, budget).value)
  {
    var trimmed := Trimmed(data);
    UncutShows(data, v);
    var longest := LongestFit(trimmed, v, budget, |v.original|);
    if longest.Some? {
      CandidateShows(trimmed, v, longest.value);
    } else {
      CandidateShows(MinimalBase(trimmed), v, 0);
      RecordShows([Field("items", Array([Object(Record(v, 0))] + []))], v, 0, []);
      assert [Object(Record(v, 0))] + [] == [Object(Record(v, 0))];
    }
  }

  /** The answer advances the client, or ends the read. */
  predicate Progresses(data: seq<Field>, v: View, budget: nat) {
    var k := KeptLength(data, v, budget);
    k.Some? && (k.value > 0 || v.original == "")
  }

  /** A chunk that is not empty advances the client just when the answer with its first character fits. */
  lemma ProgressesIff(data: seq<Field>, v: View, budget: nat)
    requires Regular(data, v) && v.original != ""
    ensures Progresses(data, v, budget) <==>
              Size(Object(data)) <= budget || Size(Object(Trimmed(data))) <= budget || Fits(Trimmed(data), v, budget, 1)
  {
    var trimmed := Trimmed(data);
    var longest := LongestFit(trimmed, v, budget, |v.original|);
    if longest.Some? && longest.value > 0 && Size(Object(trimmed)) > budget {
      FullCandidate(data, v);
      LongerIsLarger(trimmed, v, 1, longest.value);
    }
    if Fits(trimmed, v, budget, 1) && longest.Some? {
      assert !(longest.value < 1);
    }
  }

  // ----- following next_offset -----

  /** What one section read depends on besides the offset. */
  datatype Read = Read(envelope: Envelope, text: string, chunkSize: nat, maxReturnChars: int,
                       sensitive: string -> bool, isLocal: string -> bool)

  /** The service's answer; None for an offset or a chunk size out of range. */
  function Served(r: Read, offset: nat): (answer: Option<seq<Field>>)
    ensures answer.Some? ==> offset <= |r.text| && offset <= LAST_OFFSET
  {
    if r.chunkSize < 256 || 2400 < r.chunkSize then None
    else Answer(r.envelope, r.text, offset, ChunkSize(r.chunkSize, r.maxReturnChars))
  }

  function ChunkEnd(r: Read, offset: nat): (end: nat)
    requires offset <= |r.text|
    ensures offset <= end <= |r.text|
  {
    Min(|r.text|, offset + ChunkSize(r.chunkSize, r.maxReturnChars))
  }

  /** The chunk that the service cuts looks like a local path, so the client sees a placeholder instead. */
  predicate Redacts(r: Read, offset: nat) {
    offset <= |r.text| && r.isLocal(r.text[offset..ChunkEnd(r, offset)])
  }

  /** The read cannot go on at `offset`: the service refuses, or the answer brings no character. */
  ghost predicate Stalls(r: Read, offset: nat) {
    var answer := Served(r, offset);
    answer.Some? ==>
      var data := SafeFields(r.sensitive, r.isLocal, answer.value);
      exists v :: Regular(data, v) && Views(v, r.text, offset, ChunkEnd(r, offset))
                  && !Progresses(data, v, Budget(r.maxReturnChars))
  }

  /** A project with this objective. */
  ghost predicate HasObjective(project: Option<Json>, objective: string) {
    project.Some? && project.value.Object? && Get(project.value.fields, "objective") == Some(Text(objective))
  }

  lemma ObjectiveCosts(fields: seq<Field>, objective: string)
    requires HasObjective(Get(fields, "project"), objective)
    ensures Size(Object(fields)) > |objective|
  {
    GetCost(fields, "project");
    GetCost(Get(fields, "project").value.fields, "objective");
    SizeAtLeast(objective);
  }

  lemma {:induction false} RemoveKeeps(fields: seq<Field>, key: string, other: string)
    requires key != other
    ensures Get(Remove(fields, key), other) == Get(fields, other)
  {
    if fields != [] {
      RemoveKeeps(fields[1..], key, other);
      if fields[0].key != key {
        assert ([fields[0]] + Remove(fields[1..], key))[1..] == Remove(fields[1..], key);
      }
    }
  }

  lemma TrimmedKeepsObjective(data: seq<Field>, objective: string)
    requires HasObjective(Get(data, "project"), objective)
    ensures HasObjective(Get(Trimmed(data), "project"), objective)
  {
    var project := AsObject(Get(data, "project"));
    RemoveKeeps(project.value, "config", "objective");
    GetPut(data, "project", Object(Remove(project.value, "config")), "project");
  }

  lemma CandidateKeepsObjective(base: seq<Field>, v: View, k: nat, objective: string)
    requires k <= |v.original| && HasObjective(Get(base, "project"), objective)
    ensures HasObjective(Get(Candidate(base, v, k), "project"), objective)
  {
    var items := Array([Object(Record(v, k))] + v.rest);
    GetPut(base, "items", items, "project");
    GetPut(Put(base, "items", items), "next_offset", NextAt(v, k), "project");
  }

  /** The fit trims the configuration of a project and not its objective, so a long one leaves no room for the chunk. */
  lemma ObjectiveCrowds(data: seq<Field>, v: View, budget: nat, objective: string)
    requires HasObjective(Get(data, "project"), objective) && budget <= |objective| && v.original != ""
    ensures !Progresses(data, v, budget)
  {
    var trimmed := Trimmed(data);
    ObjectiveCosts(data, objective);
    TrimmedKeepsObjective(data, objective);
    ObjectiveCosts(trimmed, objective);
    forall k: nat | k <= |v.original| ensures !Fits(trimmed, v, budget, k) {
      CandidateKeepsObjective(trimmed, v, k, objective);
      ObjectiveCosts(Candidate(trimmed, v, k), objective);
    }
  }

  lemma ServedObjective(r: Read, offset: nat, objective: string)
    requires Served(r, offset).Some? && !r.sensitive("project") && !r.sensitive("objective") && !r.isLocal(objective)
    requires HasObjective(Some(r.envelope.project), objective)
    ensures HasObjective(Get(SafeFields(r.sensitive, r.isLocal, Served(r, offset).value), "project"), objective)
  {
    var answer := Served(r, offset).value;
    GetAt(answer, "project", 0);
    GetSafe(r.sensitive, r.isLocal, answer, "project");
    GetSafe(r.sensitive, r.isLocal, r.envelope.project.fields, "objective");
  }

  /** A project whose objective is as long as the budget stalls every read of a section that is not empty. */
  lemma LongObjectiveStalls(r: Read, offset: nat, objective: string)
    requires LeavesSections(r.sensitive) && !Redacts(r, offset) && Served(r, offset).Some? && offset < ChunkEnd(r, offset)
    requires !r.sensitive("project") && !r.sensitive("objective") && !r.isLocal(objective)
    requires HasObjective(Some(r.envelope.project), objective) && Budget(r.maxReturnChars) <= |objective|
    ensures Stalls(r, offset)
  {
    var v := ServedSection(r.sensitive, r.isLocal, r.envelope, r.text, offset, ChunkSize(r.chunkSize, r.maxReturnChars));
    ServedObjective(r, offset, objective);
    ObjectiveCrowds(SafeFields(r.sensitive, r.isLocal, Served(r, offset).value), v, Budget(r.maxReturnChars), objective);
  }

  /** At an output cap of 4,000 characters an objective of 3,760 is enough; the service accepts 4,000. */
  function CrowdedRead(): Read {
    Read(Envelope(Object([Field("objective", Text(seq(3760, i => 'x')))]), "", [], Null, "", ""), "y", 256, 4000,
         key => false, text => false)
  }

  lemma CrowdedReadStalls()
    ensures Stalls(CrowdedRead(), 0)
  {
    var r, objective := CrowdedRead(), seq(3760, i => 'x');
    GetAt(r.envelope.project.fields, "objective", 0);
    LongObjectiveStalls(r, 0, objective);
  }

  lemma PrefixThenChunk(s: string, offset: nat, end: nat, k: nat)
    requires offset <= end <= |s| && k <= end - offset
    ensures s[..offset] + s[offset..end][..k] == s[..offset + k]
  {
  }

  /** What the client learns from one answer to an unredacted request. */
  lemma OneAnswer(r: Read, offset: nat, payload: Json) returns (v: View, k: nat)
    requires Served(r, offset).Some? && LeavesSections(r.sensitive) && !Redacts(r, offset)
    requires var data := SafeData(r.sensitive, r.isLocal, Object(Served(r, offset).value));
             forall w :: IsSectionAnswer(data, w) ==> Carries(data.fields, w, Budget(r.maxReturnChars), payload)
    ensures Views(v, r.text, offset, ChunkEnd(r, offset)) && k <= |v.original|
    ensures SectionIn(payload).None? ==> Stalls(r, offset)
    ensures SectionIn(payload).Some? ==> Shows(payload, v, k) && (k > 0 || v.original == "" || Stalls(r, offset))
  {
    var chunk := ChunkSize(r.chunkSize, r.maxReturnChars);
    v := ServedSection(r.sensitive, r.isLocal, r.envelope, r.text, offset, chunk);
    var data := SafeFields(r.sensitive, r.isLocal, Served(r, offset).value);
    var budget := Budget(r.maxReturnChars);
    FittedShows(data, v, budget);
    assert SafeData(r.sensitive, r.isLocal, Object(Served(r, offset).value)) == Object(data);
    assert Carries(data, v, budget, payload);
    var kept := KeptLength(data, v, budget);
    k := if kept.Some? then kept.value else 0;
    if !Progresses(data, v, budget) {
      assert Stalls(r, offset);
    }
  }

  /**
   Reads a section from 0 on.  Unless some chunk was redacted, the text so far
   is exactly the section up to the offset reached, and the read stops short
   only where an answer cannot bring another character.
   */
  method ReadSection(r: Read, traceId: string)
    returns (text: string, complete: bool, stuck: nat, ghost redacted: Option<nat>)
    requires IsTraceId(traceId) && LeavesSections(r.sensitive)
    ensures redacted.Some? ==> Redacts(r, redacted.value)
    ensures redacted.None? && complete ==> text == r.text
    ensures redacted.None? && !complete ==> stuck <= |r.text| && text == r.text[..stuck] && Stalls(r, stuck)
  {
    text, complete, stuck, redacted := "", false, 0, None;
    while true
      invariant !complete
      invariant redacted.Some? ==> Redacts(r, redacted.value)
      invariant redacted.None? ==> stuck <= |r.text| && text == r.text[..stuck]
      decreases |r.text| + 1 - stuck
    {
      var answer := Served(r, stuck);
      if answer.None? {
        return;
      }
      var data := SafeData(r.sensitive, r.isLocal, Object(answer.value));
      var response := Invoke(data, r.maxReturnChars, true, traceId);
      var payload := Payload(response).value;
      var view := SectionIn(payload);
      if Redacts(r, stuck) {
        redacted := Some(stuck);
      }
      ghost var v: View, k: nat;
      if redacted.None? {
        v, k := OneAnswer(r, stuck, payload);
        if view.Some? {
          PrefixThenChunk(r.text, stuck, ChunkEnd(r, stuck), k);
        }
      }
      if view.None? {
        return;
      }
      var next := Get(view.value.section, "next_offset");
      if next == Some(Null) {
        text, complete := text + view.value.original, true;
        return;
      }
      if next.None? || !next.value.Number? || next.value.n <= stuck {
        return;
      }
      text, stuck := text + view.value.original, next.value.n;
    }
  }
}
