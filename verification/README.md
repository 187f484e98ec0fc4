# Verified model of research-kb

research-kb stores sources, research items and evidence in SQLite, lets agents
work on them under an administrator's control, and adds writing, catalog and
acquisition tools.  This project models its hardest parts in Dafny and proves
what they promise.  `dafny verify dfyconfig.toml` checks all of it.

## How the model is organised

- **Governance.** `Store.dfy` holds the tables and every transaction over them as
  one atomic step: guards come from the Python code and from the triggers of
  `src/research_kb/migrations`.  `Checkpoints`, `Approvals`, `EvidenceTokens`
  and `Sessions` prove invariants over all runs from the empty database, and
  `ApprovalRuns` what whole runs show beyond single steps; `EvidenceUse` and
  `StoreAnswers` say when the transactions go through, by the tables alone.
  `ResearchService.dfy` is the service as a class that changes its tables step
  by step and is proved equal to those transactions; `Doctor.dfy` is the
  independently written monitor, which finds nothing in any reachable state.
- **Public drafts.** `Lines`, `Markdown`, `PublicDraft` and `ParityChecker` model
  the draft builder and its checker; `PublicParity` proves when a draft passes.
  `Annotations` says which comments leave the draft, and `ParityReading` what
  the checks read off a text, both without the scans that do it.
- **Reading under a size cap.** `Json` and `JsonReader` model the values and their
  text, `SectionReading` the fit of an answer into the output cap, and
  `SectionClient` the client that follows `next_offset`.  `Codecs`,
  `ContextIndex` and `IndexClient` do the same for the index and its cursors.
- **Chunks, terms, index.** `Chunker`, `Paragraphing` (what its paragraphs are),
  `Tokenizer`, `TermMatching` (which queries find what contains them) and
  `SearchIndex`.
- **Catalog.** `Catalog` (resumable scan), `CatalogStages` (stages that change
  the records of a group or the best of a list), `CatalogDuplicates`,
  `CatalogSelection`, `CatalogRun` (a whole first run), `CatalogOutcome` (what
  becomes of each file of a tree), `CatalogOrder` and `Sampling`.
- **Acquisition and live approval.** `Acquisition`, `ApprovalPreview` and
  `PreviewOutcome` (when a preview is created and authorized).
- **Research risk.** `RiskFindings` (documents and findings), `RiskPairs`
  (hypotheses no evidence tells apart), `RiskRules` (the rules),
  `RiskMonotone` (what locking and higher levels add), `RiskSections` (which
  section reports what), `RiskLevels` (what the levels share and what the
  causal one loses) and `RiskTable` (for every finding, when it is reported).
- **Smaller kernels.** `SearchSelection` (diversified search results), and
  `SkillScan` and `SkillPlaces` (the doctor's bounded directory walk).

`Wrappers`, `Text`, `Sorting`, `Grouping` and `Corpus` are shared.

## Where the code does less than its promise

- A line of one to six `#` marks and two or more spaces is a heading before the
  right trim and none after it.  `PublicParity.DraftPassesIff` gives the exact
  condition under which a draft passes its own checker.
- Only an administrator's insertion straight under review breaks "under review
  iff one open request" (`Approvals.InsertionKeepsReviewsIff`; such a run is
  `ApprovalRuns.ReviewWithoutRequest`).
- Evidence may be shared by several projects.  After one project decides it, the
  other project's open request can never be decided
  (`Approvals.DecisionGoesThroughIff`, `Approvals.OrphanedRequestStaysOpen`;
  `ApprovalRuns.OrphanIsReached` is a run that gets there).
- A shortened section chunk may be empty and then makes no progress;
  `SectionClient.ProgressesIff` says exactly when.  A project's objective is
  never shortened, so an objective as long as the budget stalls every section
  read (`SectionClient.LongObjectiveStalls`, `SectionClient.CrowdedReadStalls`).
- An index page that is too large loses items at its end, but its `next_cursor`
  does not move back, so a client that follows the cursors through the MCP layer
  misses them: all items of a page arrive iff it fits
  (`IndexClient.AllItemsArriveIff`), and up to a million items of a project all
  arrive iff every page fits (`IndexClient.ListThroughMcp`);
  `IndexClient.SecondNoteLost` is a project that loses a note.
- An index is listed up to the first page that begins behind a million items; the
  service refuses its own cursor for that page (`ContextIndex.ListIndex`).
- Editing a title leaves the search index stale until the next reindex
  (`SearchIndex.FreshIff`, `SearchIndex.RetitledIsStale`).
- A query can be missed in a body that contains it, such as a single CJK
  character inside a CJK run (`Tokenizer.UnalignedOccurrenceCanMiss`,
  `TermMatching.CjkCharacterIsTermIff`); `TermMatching.FoundEverywhereIff` says
  for exactly which queries this can happen.
- An approval is dated by a second reading of the clock, which may lie past the
  expiry that the first one was tested against
  (`ApprovalPreview.CreatedBeforeExpiryIff`, `ApprovalPreview.LateStamp`).
- Two rival hypotheses that share an id hide each other from the discrimination
  rule (`RiskPairs.SharedIdHides`, `RiskPairs.SharedIdHidesThird`).
- The rule table of the risk policy gives the material and review rules to the
  genealogical level and those above; the code applies them at that level only, so
  raising a design to causal can take findings away: exactly those of
  `RiskLevels.LostToCausal`, and none iff the condition of
  `RiskLevels.CausalCoversIff` holds.  The exclusion and simplicity rules, which
  the table gives to comparative designs and those above, apply at every level
  (`RiskLevels.CriteriaAtEveryLevel`, `RiskLevels.SimplicityAtEveryLevel`).
- `max_items` cuts the bibliography after its keys have been remembered, so a
  recent work that is also a reference is lost when that reference is cut
  (`Acquisition.CutReferenceHidesWork`).
- In the chunker the flush inside the slicing loop and the fallback of `find`
  are never reached; in `reindex` the count mismatch is never reached.

## Modelling choices

- Identifiers are numbers supplied with each step, as fresh as the caller makes
  them; a clash is the refused transaction of a database key error.  An empty
  string as a superseded identifier cannot be written down.
- The cursors of the index are those of the project ids that `create_project`
  accepts (`src/research_kb/admin.py:34`).
- Clocks are arguments, in microseconds; token expiries are stored in whole
  seconds and preview expiries in ten-thousandths of a second, as in the code.
- Content hashes are numbers compared for equality; the hash of a preview is an
  arbitrary function of its canonical JSON.
- The service only ever writes version 1 of an item, so a version is part of its
  item.  Texts are unbounded strings of Unicode scalar values.
- Case folding, Unicode normalization, `str.isalnum`, the normalization of titles,
  the rank of a sort key, file digests, the resolver and the downloader are
  function arguments.

## Model

| member | source | states |
|---|---|---|
| ResearchService.ResearchDatabase.CreateItem | src/research_kb/service.py:499-633 | the inserted item, session binding, links and audit row, or a refusal that rolls everything back, exactly as the transaction specifies |
| ResearchService.ResearchDatabase.SaveResearchNote | src/research_kb/service.py:801-848 | the note transaction; a saved checkpoint becomes the new end of its project's chain |
| ResearchService.ResearchDatabase.CurrentStandardCheckpoints | src/research_kb/service.py:635-678 | the loop lists exactly the checkpoints without a successor |
| ResearchService.ResearchDatabase.CrossKindCheckpointSuccessors | src/research_kb/service.py:680-735 | the loop lists exactly the non-checkpoints that supersede a checkpoint |
| ResearchService.ResearchDatabase.ValidateCheckpointSuccessor | src/research_kb/service.py:737-799 | which successor targets are refused, and why |
| ResearchService.ResearchDatabase.TouchSession | src/research_kb/service.py:161-191 | a session is bound to one actor and one project, or the call is refused |
| ResearchService.ResearchDatabase.VerifyQuote | src/research_kb/service.py:914-975 | issues a token bound to actor, session, project, content hash and version only for a verbatim quote |
| ResearchService.ResearchDatabase.SubmitVerifiedEvidence | src/research_kb/service.py:977-1056 | redeems a token once, or refuses and changes nothing |
| ResearchService.ResearchDatabase.RequestUserApproval | src/research_kb/service.py:1331-1437 | files one open request per target and moves the item under review |
| ResearchService.ResearchDatabase.DecideApproval | src/research_kb/service.py:1439-1503 | closes the request and decides its target, or refuses |
| ResearchService.ResearchDatabase.Invariants | src/research_kb/service.py:153-1908 | every state of the database object, after any calls, satisfies the chain, review, token and uniqueness invariants |
| Checkpoints.ReachableCheckpointChain | src/research_kb/service.py:499-799 | after any run each project's checkpoints are one line: at most one current, every other one has exactly one successor, the next checkpoint of the same project; supersedes is acyclic and stays inside a project |
| Checkpoints.OneCurrentCheckpoint | src/research_kb/service.py:635-678 | under the invariant the current list is the newest checkpoint alone, and successors are exactly the next in line |
| Checkpoints.SupersedesIsAcyclic | src/research_kb/service.py:499-633 | no chain of supersedes links over all items returns to its start |
| Checkpoints.StepKeepsChain | src/research_kb/service.py:737-799 | every researcher or administrator step keeps the chain invariant |
| Checkpoints.CheckpointIsSavedIff | src/research_kb/service.py:726-799 | a checkpoint is saved iff the session may still write to the active project, its key is new, and it supersedes the newest checkpoint of the project (or nothing, if there is none) |
| Checkpoints.SavedCheckpointIsNewest | src/research_kb/service.py:801-848 | a saved checkpoint becomes the new end of its project's chain |
| Checkpoints.WrongSuccessorConflicts | src/research_kb/service.py:737-799 | any other target is refused as a conflict |
| Checkpoints.ItemIsSavedIff | src/research_kb/service.py:499-633 | a hypothesis, objection or report is saved iff its author may set its status, quota, project, session and key allow it, its links are in scope, and what it supersedes is an item of the project but no checkpoint |
| Approvals.UnderReviewIffOneOpenRequest | src/research_kb/service.py:1331-1503 | after any run without an insertion straight under review, an item is under review iff it has exactly one open request |
| Approvals.InsertionKeepsReviewsIff | src/research_kb/service.py:505-530 | an insertion breaks that equivalence exactly when an administrator inserts an item under review |
| Approvals.DecisionGoesThroughIff | src/research_kb/service.py:1439-1503 | when a decision succeeds: an item unless approving a superseded one; shared evidence only for the first decision |
| Approvals.DecisionIsRecorded | src/research_kb/service.py:1439-1503 | a decision makes its request approved or declined and its item or evidence accepted or rejected, as decided; every other request, item and evidence keeps its status |
| StoreAnswers.RequestIsFiledIff | src/research_kb/service.py:1331-1437 | a request goes through iff quota and project allow it, the target is one of the project, and it is a candidate or has an open request, which is then returned unchanged |
| Approvals.TerminalItemsStayFrozen | src/research_kb/migrations/001_initial.sql:213-215 | accepted and rejected items never change again, in any run |
| Approvals.DecidedEvidenceStaysDecided | src/research_kb/migrations/003_phase3.sql:22-31 | decided evidence keeps its status in any run |
| Approvals.ResearcherRunsDecideNothing | src/research_kb/service.py:1439-1503 | no run of researcher steps accepts or rejects an item or evidence |
| Approvals.SuccessorsFollowAcceptance | src/research_kb/service.py:540-600 | every successor of an approved item was created after its approval, by the rows of the audit log |
| ApprovalRuns.AcceptanceComesFirst | src/research_kb/service.py:505-600 | in any run, an accepted item with a successor became accepted, by approval or by an administrator's insertion, before the successor was inserted |
| ApprovalRuns.ReviewWithoutRequest | src/research_kb/service.py:505-530 | a run that puts an item under review without a request |
| Approvals.RunKeepsOneOpen | src/research_kb/service.py:1331-1437 | at most one open request per project and target, in any run |
| Approvals.OrphanedRequestStaysOpen | src/research_kb/service.py:1439-1503 | a request for evidence that another project had decided stays open in every continuation |
| ApprovalRuns.OrphanIsReached | src/research_kb/service.py:1331-1503 | a run from the empty database that reaches such a request, which every continuation leaves open |
| EvidenceTokens.EvidenceProvenance | src/research_kb/service.py:914-1056 | each evidence row comes from exactly one token, no token yields two, and the row quotes its passage verbatim under the issuing actor, session, project, hash and version |
| EvidenceTokens.VerifiedQuoteRedeems | src/research_kb/service.py:914-1056 | a verified quote can be submitted right away by the same actor and session exactly until the whole second of its expiry |
| EvidenceTokens.CleanupIsInvisible | src/research_kb/admin.py:331-348 | running the cleanup earlier never changes whether a submission succeeds |
| EvidenceUse.QuoteIsVerifiedIff | src/research_kb/service.py:914-975 | a quote is verified iff it has eight characters, the project is active, it stands anywhere in the passage, and token and secret are new; the answer is no iff it does not stand there; and what the token holds |
| EvidenceUse.TokenIsTakenIff | src/research_kb/service.py:977-1056 | in a reachable state a token is taken iff presented in its own active project by its actor and session, for the first time and before its expiry, while the document keeps its version; the evidence copies the token |
| StoreAnswers.CleanupMarks | src/research_kb/admin.py:331-348 | the clean-up consumes exactly the unused tokens whose last second is over, and counts them |
| Sessions.SessionsAreBoundAndBounded | src/research_kb/policy.py:138-156 | in any run a session has one author and project, and an agent session creates at most the quota of items |
| StoreAnswers.OverQuotaIff | src/research_kb/policy.py:138-156 | an author other than an administrator is over the quota iff the successful submissions of the session have used it up |
| StoreAnswers.SessionIsTouchedIff | src/research_kb/service.py:161-191 | a session may be used iff it is new, or its actor's own and not bound to another project |
| StoreAnswers.FileIsIngestedIff | src/research_kb/ingest.py:219-323 | a file is ingested iff it has chunks and its hash is stored already, which only links it, or all its keys are new, which adds the document and its numbered passages |
| Doctor.DoctorFindsNothing | src/research_kb/doctor.py:507-705 | no reachable state shows a second current checkpoint, a cross-kind successor or a duplicate open request |
| Doctor.CountCurrent | src/research_kb/doctor.py:533-570 | the doctor's one-pass count equals the length of the service's current list |
| Doctor.CheckCheckpoints | src/research_kb/doctor.py:507-599 | the classification of each project from those counts |
| Doctor.DoctorSaysIff | src/research_kb/doctor.py:507-599 | in every reachable state a live project is reported with one current checkpoint iff it has a checkpoint, as empty iff it has no item, as legacy iff it has only unmarked notes that are current, and without checkpoint otherwise |
| Doctor.CheckCrossKind | src/research_kb/doctor.py:602-671 | lists exactly the cross-kind successors of any project |
| Doctor.CheckApprovals | src/research_kb/doctor.py:674-705 | counts exactly the keys with several open requests |
| PublicDraft.BuildPublicDraft | src/research_kb/writing_audit.py:801-828 | the draft: annotations removed, lines right-trimmed, blank runs cut to two, line ending chosen; and how many lines were dropped |
| PublicDraft.TrimLines | src/research_kb/writing_audit.py:801-828 | the loop with its blank-run counter computes that normal form |
| PublicDraft.PublicLinesTidy | src/research_kb/writing_audit.py:801-828 | no line of the draft has trailing space and no three lines in a row are blank |
| PublicDraft.StrippingKeepsLineFeeds | src/research_kb/writing_audit.py:1030-1032 | removing annotations keeps every line feed |
| PublicDraft.RunsAreCut | src/research_kb/writing_audit.py:801-828 | every run of blank lines is cut to two empty ones, and every other line stays, right-trimmed |
| Annotations.AnnotationIsRemoved | src/research_kb/writing_audit.py:59-59 | a writing annotation is replaced by the line feeds it held, whatever stands around it |
| Annotations.FirstIsRemoved | src/research_kb/writing_audit.py:1030-1032 | the text before the first annotation stays, and the text behind it is stripped in turn |
| Annotations.UnchangedIff | src/research_kb/writing_audit.py:1030-1032 | a text is left unchanged iff it holds no annotation |
| PublicParity.DraftPassesIff | src/research_kb/writing_audit.py:801-888 | the draft passes every parity check iff no bare line of marks is a shallow heading, ends a blank abstract, or hides bibliography entries |
| PublicParity.DraftPasses | src/research_kb/writing_audit.py:801-888 | without a line of only # marks and two or more spaces, every draft passes |
| PublicParity.BareLineFails | src/research_kb/writing_audit.py:34-34 | one such line is a counterexample |
| ParityChecker.CheckPublicParity | src/research_kb/writing_audit.py:861-888 | the checker's seven comparisons decide exactly the parity relation |
| ParityChecker.BuildAndCheck | src/research_kb/writing_audit.py:1547-1560 | building and checking together: the verdict depends on the bare lines alone |
| ParityChecker.Headings | src/research_kb/writing_audit.py:357-363 | the headings of the lines, in order |
| ParityChecker.HeadingSignature | src/research_kb/writing_audit.py:835-840 | the levels and normalized titles of the headings down to level three |
| ParityReading.HeadingIff | src/research_kb/writing_audit.py:357-363 | a line is a heading of a level and a title iff it splits into that many marks, space, a group and space, with the title as the stripped group |
| ParityReading.SignatureOfLine | src/research_kb/writing_audit.py:835-840 | the signature of one line |
| ParityReading.SignatureOfBoth | src/research_kb/writing_audit.py:835-840 | the signatures of two texts stand one after the other |
| ParityChecker.AbstractIsFilled | src/research_kb/writing_audit.py:439-452 | whether the abstract section has visible text |
| ParityReading.AbstractIff | src/research_kb/writing_audit.py:439-452 | the abstract is filled iff some visible line follows the first abstract heading with no heading of its level or above between |
| ParityChecker.CountTables | src/research_kb/writing_audit.py:843-854 | the number of groups of adjacent table rows |
| ParityReading.TablesAreStarts | src/research_kb/writing_audit.py:843-854 | tables are counted by the rows that follow no row |
| ParityReading.TableRowIff | src/research_kb/writing_audit.py:843-854 | a row begins with a bar after nothing but space |
| ParityReading.QuotesAre | src/research_kb/writing_audit.py:857-858 | quotations are counted by the two curly marks |
| ParityChecker.BibliographyItemCount | src/research_kb/writing_audit.py:413-436 | the entries between the reference heading and the end of its section |
| ParityReading.BibliographyIs | src/research_kb/writing_audit.py:413-436 | the bibliography counts the entries below the first reference heading, up to the next heading of its level or above |
| ParityReading.ReferenceHeadingIff | src/research_kb/writing_audit.py:54-56 | a reference heading, stripped, is one to six marks, space if any, and one of three titles |
| ParityChecker.ReferencedLabels | src/research_kb/writing_audit.py:396-400 | the footnote labels referenced outside definitions |
| ParityReading.ReferencedIff | src/research_kb/writing_audit.py:382-400 | a label is referenced iff in some line it stands in brackets that are not part of an earlier label and not followed by a colon |
| ParityChecker.DefinedLabels | src/research_kb/writing_audit.py:366-379 | the footnote labels defined |
| ParityReading.DefinedIff | src/research_kb/writing_audit.py:366-379 | a label is defined iff some stripped line begins with it in brackets and a colon |
| Lines.NormalizedLines | src/research_kb/writing_audit.py:764-770 | normalizing line endings keeps the lines of any text |
| Lines.RoundTrip | src/research_kb/writing_audit.py:764-770 | joined lines survive two changes of line ending |
| Json.SizeIsLength | src/research_kb/mcp_server.py:208-209 | the size of a value is the length of its serialization |
| Json.PutSize | src/research_kb/mcp_server.py:238-248 | what replacing a field does to an object's size |
| SectionReading.LongestFittingPrefix | src/research_kb/mcp_server.py:250-262 | the binary search finds the longest prefix of the chunk whose answer fits, as a scan from the end would |
| SectionReading.LongerIsLarger | src/research_kb/mcp_server.py:238-248 | below the full length a longer prefix never makes a smaller answer |
| SectionReading.FullCandidate | src/research_kb/mcp_server.py:238-252 | the full prefix is the answer itself, which is already known not to fit |
| SectionReading.FitRequestedSection | src/research_kb/mcp_server.py:212-276 | the fitted answer for every answer of the service's shape, and no change for others |
| SectionReading.PopList | src/research_kb/mcp_server.py:300-305 | the list keeps the longest prefix with which the answer fits, and no other field changes |
| SectionReading.FitReturnData | src/research_kb/mcp_server.py:279-313 | data that fits is untouched; a section answer is fitted or replaced by a preview; of any other answer each list in turn keeps as much as fits |
| SectionReading.ResponseSize | src/research_kb/mcp_server.py:103-111 | the protocol envelope costs at most 152 characters |
| SectionReading.Invoke | src/research_kb/mcp_server.py:401-434 | the response never exceeds the cap; it carries the fitted section whenever the first budget allows it, and of other answers the fitted data |
| SectionReading.TighterNeverHelps | src/research_kb/mcp_server.py:417-431 | a section lost under the first budget is lost under the tighter one |
| SectionClient.ServedSection | src/research_kb/service.py:1705-1747 | the service's answer holds the chunk and continuation offsets, and redaction keeps them unless the chunk looks like a local path |
| SectionReading.RedactedIsSafe | src/research_kb/mcp_server.py:186-205 | redaction leaves no sensitive key and no local path at any depth, and changes nothing iff there was none |
| SectionClient.FittedShows | src/research_kb/mcp_server.py:238-276 | what arrives is a prefix of the chunk with the offset that continues behind it |
| SectionClient.ProgressesIff | src/research_kb/mcp_server.py:212-276 | a non-empty chunk advances the client iff the answer with its first character fits |
| SectionClient.LongObjectiveStalls | src/research_kb/mcp_server.py:212-276 | a project objective as long as the budget leaves no room for any chunk: the read of a section stalls |
| SectionClient.CrowdedReadStalls | src/research_kb/service.py:1560-1566 | one such read: an output cap of 4,000 and an objective of 3,760 characters, which may have 4,000 |
| SectionClient.ReadSection | src/research_kb/service.py:1711-1747 | following next_offset rebuilds the whole section, or stops exactly where an answer cannot bring another character, or names a redacted chunk |
| JsonReader.LoadsDumps | src/research_kb/service.py:58-59 | reading back serialized JSON gives the same value, so a JSON section rebuilt from chunks is valid again |
| Codecs.Utf8RoundTrip | src/research_kb/service.py:66-69 | UTF-8 decoding inverts encoding for every text |
| Codecs.Base64RoundTrip | src/research_kb/service.py:66-75 | unpadded base64url decodes after the padding is computed from the length (section 5 of RFC 4648) |
| ContextIndex.CursorRoundTripIff | src/research_kb/service.py:66-87 | a project reads its own cursor back iff the cursor has at most 512 characters and the offset is at most a million |
| ContextIndex.OtherProjectIsRefused | src/research_kb/service.py:72-87 | a cursor is refused in every other project |
| ContextIndex.CursorsDiffer | src/research_kb/service.py:66-69 | the cursor determines project and offset |
| ContextIndex.CursorRoundTrip | src/research_kb/service.py:66-87 | for every id that a project can be created with, a cursor is read back as its own offset iff that is at most a million |
| ContextIndex.ListIndex | src/research_kb/service.py:1760-1827 | at the service, following the cursors lists every item of a project exactly once and in order, if there are at most a million; beyond that, exactly the pages that begin at an offset of at most a million |
| IndexClient.KeptItemsIff | src/research_kb/mcp_server.py:300-305 | a page keeps all its items iff it fits its budget |
| IndexClient.AllItemsArriveIff | src/research_kb/mcp_server.py:279-313 | all items of a page arrive at the client iff the page fits its budget |
| IndexClient.PageArrives | src/research_kb/mcp_server.py:279-313 | what arrives of a page is a prefix of its items with the cursor of the whole page, or a payload without items |
| IndexClient.LastItemLost | src/research_kb/mcp_server.py:300-311 | a page one character too large loses exactly its last item, while its cursor goes on behind that item |
| IndexClient.FirstPageLoses | src/research_kb/mcp_server.py:300-311 | for every project whose first page is one character too large: the last record of the page never arrives, while next_cursor goes on behind it |
| IndexClient.SecondNoteLost | src/research_kb/service.py:1760-1827 | one such read of three notes with pages of two |
| IndexClient.FetchPage | src/research_kb/service.py:1760-1827 | one page through the MCP layer: a prefix of its records, whole iff it fits, and the cursor behind the whole page |
| IndexClient.ListThroughMcp | src/research_kb/service.py:1760-1827 | following next_cursor through the MCP layer lists every item in order iff every page fits its budget, for up to a million items; the exact number of items for which this is so |
| Chunker.Chunks | src/research_kb/ingest.py:98-127 | chunks have length 1 to the maximum, end - start equals the length, spans are ordered and disjoint, no two neighbours would fit together, chunks of one paragraph are verbatim, and together they hold exactly the visible text |
| Chunker.CoversAll | src/research_kb/ingest.py:98-127 | the chunks without whitespace concatenate to the text without whitespace |
| Chunker.LocateParagraphs | src/research_kb/ingest.py:98-104 | the paragraphs stand verbatim and in order in the text with nothing but space between them |
| Chunker.FindParagraph | src/research_kb/ingest.py:106-110 | find() returns the true position of the paragraph, so the fallback is never used |
| Chunker.NormalizeKeepsVisible | src/research_kb/ingest.py:98-101 | normalization loses only whitespace |
| Paragraphing.UnifyingKeepsLines | src/research_kb/ingest.py:98-101 | unifying the line ends changes no line |
| Paragraphing.NoReturnLeft | src/research_kb/ingest.py:98-101 | and leaves no carriage return |
| Paragraphing.ParagraphsIff | src/research_kb/ingest.py:98-104 | the paragraphs are the one list of visible pieces without a blank line that stand in the text in order, parted by blank lines |
| Chunker.AddParagraph | src/research_kb/ingest.py:105-122 | the loop body flushes, slices or joins and keeps all of this |
| Tokenizer.NormalizeSearchTerms | src/research_kb/search.py:26-65 | the two-buffer loop computes the distinct terms in order of appearance |
| Tokenizer.ReadCharacter | src/research_kb/search.py:40-62 | at most one buffer is non-empty, and a character of the other kind flushes it |
| Tokenizer.TermsAreRunTerms | src/research_kb/search.py:26-65 | the terms are distinct and are exactly those of the maximal Latin/number and CJK runs |
| Tokenizer.AlignedOccurrenceMatchesAll | src/research_kb/search.py:73-80 | wherever a query occurs with its ends on term boundaries or on CJK pairs, all its terms are terms of the body |
| Tokenizer.UnalignedOccurrenceCanMiss | src/research_kb/search.py:26-65 | a single CJK character inside a run is missed |
| TermMatching.CjkCharacterIsTermIff | src/research_kb/search.py:26-65 | a CJK character is a term of a body iff some maximal CJK run of the body is that character alone |
| TermMatching.FoundEverywhereIff | src/research_kb/search.py:73-80 | all terms of a query are terms of every body that contains it iff each end of the query is no term character, or a CJK pair, or its end run stands inside the query as well |
| Tokenizer.TokenizingIsIdempotent | src/research_kb/search.py:26-70 | tokenizing the joined terms gives the same terms |
| SearchIndex.SearchDatabase.IngestFile | src/research_kb/ingest.py:219-323 | links a stored hash or stores and indexes all passages; a key clash undoes everything |
| SearchIndex.SearchDatabase.UpdateMetadata | src/research_kb/admin.py:116-201 | a metadata edit leaves the index alone |
| SearchIndex.SearchDatabase.Reindex | src/research_kb/admin.py:350-363 | rebuilds the index; the counts always match |
| SearchIndex.SearchDatabase.FillIndex | src/research_kb/search.py:120-143 | the refilled index is the rebuild of the corpus |
| SearchIndex.SearchDatabase.IndexPassage | src/research_kb/search.py:107-117 | adds the row of normalized title and body |
| SearchIndex.RowsMatchPassages | src/research_kb/search.py:107-143 | after any run each passage has exactly one index row, with its current body terms |
| SearchIndex.FreshIff | src/research_kb/admin.py:169-182 | the index equals a rebuild iff no document with passages has changed its title terms since they were indexed |
| SearchIndex.RetitledIsStale | src/research_kb/admin.py:100-182 | after one file and one new title the index equals a rebuild iff both titles have the same terms |
| SearchIndex.FreshSinceReindex | src/research_kb/search.py:107-143 | after any run, with no title edit since the start or the last reindex, the index equals a rebuild |
| SearchIndex.ReindexIsIdempotent | src/research_kb/search.py:120-143 | reindexing makes the index fresh, and repeating it changes nothing |
| Catalog.CatalogScanner.Scan | src/research_kb/catalog.py:1561-1610 | a completed first scan gives the records of a fresh scan, in the order of the tree, whatever was interrupted before |
| Catalog.CacheIsInvisible | src/research_kb/catalog.py:748-760 | a cache hit returns what fresh processing would |
| CatalogRun.Run | src/research_kb/catalog.py:1561-1610 | scan, derivatives, duplicate classes and candidates: a completed run ends with what one uninterrupted first run makes of the tree |
| CatalogRun.Complete | src/research_kb/catalog.py:1600-1610 | the stages after the scan compute their specification, in the order of the source |
| CatalogRun.RunThrough | src/research_kb/catalog.py:1561-1610 | any history of stops and crashes and then a completed run ends with what one uninterrupted first run makes of the tree |
| CatalogRun.InterruptionIsInvisible | src/research_kb/catalog.py:1561-1610 | after any two histories of stops and crashes, the completed runs have the same records, duplicate classes and chosen candidates |
| CatalogRun.ChangeStateIsInvisible | src/research_kb/catalog.py:896-1073 | records that agree up to their change states get the same classes and the same candidates |
| CatalogRun.FirstRunIsSound | src/research_kb/catalog.py:896-1073 | on the records of a first scan the classes are exact, every complete hash is stored, no quick twin waits for its hash, and the ready candidates have pairwise distinct hashes |
| CatalogOutcome.ClassesEnd | src/research_kb/catalog.py:849-869 | just the .txt, .md, .html and .htm files beside a PDF of their stem become derivatives; every other file keeps its class |
| CatalogOutcome.DerivativesAreNotChosen | src/research_kb/catalog.py:849-1073 | a derivative is neither ready nor offered for review |
| CatalogOutcome.BucketIff | src/research_kb/catalog.py:907-916 | a file is bucketed iff it shares size and extension with another |
| CatalogOutcome.HashIsCompleteIff | src/research_kb/catalog.py:896-955 | which files of a tree end with a complete hash, and that it is their digest |
| CatalogOutcome.ReadyIff | src/research_kb/catalog.py:1030-1073 | a file is ready iff it is suitable, hashed, and no duplicate of another |
| CatalogOutcome.ReviewIff | src/research_kb/catalog.py:1030-1073 | a file needs review iff it is a supported document of no special kind, no derivative, and not ready |
| CatalogOutcome.StatusIs | src/research_kb/catalog.py:1030-1073 | the selection status that each file of a tree ends with |
| CatalogOutcome.SmallCatalogsAreHashed | src/research_kb/catalog.py:896-955 | in a tree within the hash budget every suitable, readable file within the size limit is hashed, and ready iff no duplicate |
| CatalogOrder.OrderIsInvisible | src/research_kb/catalog.py:896-1073 | with distinct sort keys, records listed in another order get the same classes and the same files are chosen |
| Catalog.CatalogScanner.Crash | src/research_kb/catalog.py:138-157 | losing the tail of the progress file keeps the scanner valid |
| CatalogDuplicates.CatalogAnalysis.MarkDerivatives | src/research_kb/catalog.py:849-869 | the text copies of PDFs are marked as specified, before any hashing |
| CatalogDuplicates.CatalogAnalysis.AnalyzeDuplicates | src/research_kb/catalog.py:896-955 | the loops compute the specified analysis of the records: reset, buckets, hashes of quick twins and of the best others within the budget, classes |
| CatalogDuplicates.AnalysisClassifies | src/research_kb/catalog.py:932-955 | every present record is exact iff another present record has its complete hash, and possible iff its own hash is incomplete and a quick twin exists |
| CatalogDuplicates.AnalysisKeepsFiles | src/research_kb/catalog.py:896-955 | absent records stay as they are, and of the present ones only hash, digest, technical status, bucket and class change |
| CatalogDuplicates.AnalysisDecidesTwins | src/research_kb/catalog.py:916-955 | no quick twin is left with a pending hash |
| CatalogDuplicates.EqualFilesAreExact | src/research_kb/catalog.py:896-955 | two readable files within the size limit that are quick twins with equal digest both end as exact duplicates |
| CatalogDuplicates.CatalogAnalysis.MarkSizeBuckets | src/research_kb/catalog.py:907-916 | exactly the files that share size and extension with another file are bucketed |
| CatalogSelection.CandidateSelection.SelectCandidates | src/research_kb/catalog.py:1030-1073 | the loops compute the specified choice: statuses, ready records and review records, each in its order |
| CatalogSelection.ReadyAreBest | src/research_kb/catalog.py:1030-1073 | the ready records chosen are the best by rank up to the limit, in that order, with pairwise distinct hashes |
| CatalogSelection.ReviewIsBest | src/research_kb/catalog.py:1030-1073 | the review records are the best by rank in what is left, in that order |
| Sampling.StratifiedSample | src/research_kb/catalog.py:1132-1158 | the first min(limit, n) records of the sorted strata dealt round by round in the order of their keys; none twice, and no stratum more than one record ahead of another that has some left |
| Sampling.RoundRobin | src/research_kb/catalog.py:1145-1158 | the rounds terminate with a prefix of the groups dealt round by round |
| Sampling.StrataPartition | src/research_kb/catalog.py:1135-1141 | the strata partition the records |
| Acquisition.AcquisitionRun.Acquire | src/research_kb/acquisition.py:1070-1312 | all references, DOIs and recent works that are new become candidates, in order and numbered from 1; each named candidate has the resolver's answer; downloads plus remaining budget stay constant; every candidate is downloaded, skipped for the budget or queued under its key; queue keys are distinct; no work repeats; the breaker governs the bibliography |
| Acquisition.TakenIff | src/research_kb/acquisition.py:1100-1118 | a reference or recent work is taken iff it has no key or comes first with its key |
| Acquisition.NewSplits | src/research_kb/acquisition.py:1100-1118 | what is asked for later is compared with all that was asked for earlier |
| Acquisition.CutReferenceHidesWork | src/research_kb/acquisition.py:1100-1127 | a recent work that shares its key with a reference is not taken, even when max_items has cut that reference from the bibliography |
| Acquisition.AcquisitionRun.ProcessCandidate | src/research_kb/acquisition.py:857-911 | what happens to one candidate, and that the run stays conserved |
| Acquisition.AcquisitionRun.AppendManual | src/research_kb/acquisition.py:914-925 | queues a row unless its key is queued |
| Acquisition.AcquisitionRun.AddEntry | src/research_kb/acquisition.py:1100-1118 | lists exactly the references of an entry that are new, in order and numbered, and remembers the keys of all |
| Acquisition.AcquisitionRun.ResolveBibliography | src/research_kb/acquisition.py:1150-1204 | every bibliography item becomes a candidate, tried just when the streak counter allows it |
| Acquisition.CounterIsBreaker | src/research_kb/acquisition.py:1150-1186 | the counter is a breaker: an item is tried iff no three tried items before it were rate-limited in a row |
| Acquisition.BreakerIsAbsorbing | src/research_kb/acquisition.py:1154-1161 | once tripped, the breaker never lets a later item through |
| ApprovalPreview.SealPasses | src/research_kb/max_research/approval_preview.py:420-464 | a stored preview passes every later hash check, through the JSON round trip with the phrase hash removed |
| ApprovalPreview.ApprovalStore.CreateApprovalPreview | src/research_kb/max_research/approval_preview.py:365-446 | one immutable preview per DNS receipt, or the existing one, or a refusal |
| ApprovalPreview.ApprovalStore.PreviewRow | src/research_kb/max_research/approval_preview.py:448-464 | the stored row; its checks never fail |
| ApprovalPreview.ApprovalStore.AuthorizeApproval | src/research_kb/max_research/approval_preview.py:474-539 | the approval of the exact phrase of an unexpired preview, or the existing one, or a refusal |
| PreviewOutcome.PreviewIsCreatedIff | src/research_kb/max_research/approval_preview.py:365-446 | in a reachable state a preview is created iff an administrator asks with lawful lifetimes, the caps hold with one provider call, and neither receipt nor hash has a preview; its expiries |
| PreviewOutcome.PreviewIsReturnedIff | src/research_kb/max_research/approval_preview.py:365-446 | an existing preview is returned iff it is the one of the receipt and release |
| PreviewOutcome.ApprovalIsCreatedIff | src/research_kb/max_research/approval_preview.py:474-539 | a stored preview turns into its approval iff an administrator gives its phrase before both expiries, the preparation is unchanged, it has no approval, and there is no older activity; with an approval that one is returned |
| ApprovalPreview.RunKeepsInv | src/research_kb/max_research/approval_preview.py:365-539 | in any run: previews have distinct receipts and pass their checks, and approvals copy one preview each |
| ApprovalPreview.ApprovalsAreIssued | src/research_kb/max_research/approval_preview.py:498-539 | each approval of a run was checked against the clock before both expiries of its preview, and is dated by the later reading |
| ApprovalPreview.CreatedBeforeExpiryIff | src/research_kb/max_research/approval_preview.py:499-516 | an approval is dated before its expiry iff the later reading had not passed the end of the millisecond of the expiry |
| ApprovalPreview.LateStamp | src/research_kb/max_research/approval_preview.py:499-516 | for every preparation that gets a preview, a run whose clock passes the expiry between the two readings: the approval is dated at its expiry or later |
| ApprovalPreview.OneApprovalPerReceipt | src/research_kb/max_research/approval_preview.py:474-539 | at most one approval arises from a DNS receipt |
| ApprovalPreview.ExpiredReceiptStaysUnapproved | src/research_kb/max_research/approval_preview.py:498-503 | once the preview has expired without an approval, its receipt never gets one |
| ApprovalPreview.CapsOf | src/research_kb/max_research/approval_preview.py:308-330 | the effective cost cap never exceeds either ceiling |
| PreviewOutcome.CapsAreRefusedIff | src/research_kb/max_research/approval_preview.py:308-330 | caps are refused iff a stored value is negative or the stored effective cap exceeds a ceiling; a missing effective cap is the lower ceiling |
| ApprovalPreview.SortKeysIdempotent | src/research_kb/max_research/approval_preview.py:74-79 | sorting sorted keys changes nothing, so a hash input is recomputed exactly |
| RiskRules.RunRules | src/research_kb/research_risk.py:808-1236 | the findings, in order, of the rules for a document that passed the schema |
| RiskTable.ReportedIffDue | src/research_kb/research_risk.py:630-1236 | the table of the audit: every finding is reported iff the design, its level, its lock and its result files meet the condition of its row |
| RiskTable.AuditReportsIff | src/research_kb/research_risk.py:88-104 | a document gets exactly the findings that are due at the level in force; the wrapper comes before the document's own policy |
| RiskPairs.NondiscriminationFindings | src/research_kb/research_risk.py:521-547 | the nested loops compare each pair of hypotheses unless a pair with the same ids came before |
| RiskPairs.PairDiscriminates | src/research_kb/research_risk.py:503-518 | true iff both predict about some class of evidence and one expects of it what the other does not |
| RiskPairs.ReportedIff | src/research_kb/research_risk.py:521-547 | two ids are reported iff the first pair that has them is not told apart |
| RiskPairs.ReportedOnce | src/research_kb/research_risk.py:521-547 | no two warnings name the same ids |
| RiskPairs.DistinctIdsAreJudged | src/research_kb/research_risk.py:521-547 | under different ids a pair is reported iff no evidence tells it apart |
| RiskPairs.SharedIdHides | src/research_kb/research_risk.py:521-547 | rivals that share an id hide a pair that no evidence tells apart |
| RiskMonotone.LockAddsExactly | src/research_kb/research_risk.py:630-1236 | as multisets, the findings of a locked design are those of its draft and an explicit list of lock findings |
| RiskMonotone.LockOnlyAdds | src/research_kb/research_risk.py:630-1236 | for every document and result files, locking takes no finding away |
| RiskMonotone.LockedPassesIff | src/research_kb/research_risk.py:630-1236 | a locked design has no error or blocker iff its draft has none and the lock adds none |
| RiskMonotone.LevelsOnlyAdd | src/research_kb/research_risk.py:808-1236 | every (rule, bucket) pair found at a level is found at the levels above it |
| RiskPairs.SharedIdHidesThird | src/research_kb/research_risk.py:521-547 | three such hypotheses, one prediction each |
| RiskLevels.LostToCausal | src/research_kb/research_risk.py:808-1236 | exactly which (rule, bucket) pairs of the genealogical level are missing at the causal level |
| RiskLevels.CausalCoversIff | src/research_kb/research_risk.py:808-1236 | the causal level finds all the genealogical one does iff the genealogy is complete and the number of rivals is not one |
| RiskLevels.TracedIff | src/research_kb/research_risk.py:967-1037 | the genealogical rules are silent iff materials, validation, holdouts, common source, chronology and reviews are in order |
| RiskLevels.MaterialsMissedAtCausal | src/research_kb/research_risk.py:967-978 | a design without materials gets an error at the genealogical level and none for it at the causal level |
| RiskLevels.BareDesignLoses | src/research_kb/research_risk.py:822-978 | one such design and the pairs it loses |
| RiskLevels.CriteriaAtEveryLevel | src/research_kb/research_risk.py:1196-1209 | at every level a blank exclusion criterion is reported, and nothing else under that rule |
| RiskLevels.SimplicityAtEveryLevel | src/research_kb/research_risk.py:1209-1221 | at every level a rival without a simplicity note is reported, and nothing else under that rule |
| SkillScan.ScanSkillRoot | src/research_kb/doctor.py:763-845 | the bounded stack walk counts what the recursive walk counts, or stops; unless the time runs out it stops iff the directory exceeds a limit; it never counts too much |
| SkillPlaces.PlacesAreCounted | src/research_kb/doctor.py:763-845 | a counter of the recursive walk is the number of places that it counts |
| SkillPlaces.PlacesIff | src/research_kb/doctor.py:763-845 | a place is counted iff a path of readable folders leads to something of the counter's kind |
| SkillScan.ScanEntries | src/research_kb/doctor.py:803-833 | the entries of one directory are counted or kept as folders, and nothing is lost |
| SearchSelection.SelectRows | src/research_kb/service.py:322-341 | the two loops over the ranked rows compute the selection |
| SearchSelection.SelectionIsDiverse | src/research_kb/service.py:322-341 | as many rows as the limit allows, no passage twice, and every document that was found or no document twice |
| SearchSelection.SelectionIs | src/research_kb/service.py:322-341 | a diversified selection is the best row of each document and then the other rows, both in order of rank and up to the limit |
| SearchSelection.PlainSelection | src/research_kb/service.py:322-341 | without diversification the selection is the best rows |

## Left out

- Full-text ranking and the filters of `search_corpus`, `get_passage` and the citation records: reading only, and easy beside the rest.
- Bounds on text lengths, epistemic statuses and the citation tables and manifest of a report: field-by-field validation.
- The list of current checkpoints is in insertion order, not ordered by item id; the order only matters for a list that never has two elements.
- The doctor's stale-request, registry, catalog, authority and configuration checks.
- `RiskRules.RunRules`: documents that fail the schema, which only get schema errors; a missing primary hypothesis is one of those.
- `SkillScan.ScanSkillRoot`: entries come in the order in which they are scanned, so which entries of an oversized directory are read first is not modelled.
- `SearchSelection.SelectionIsDiverse`: the rows name different passages, as the keys of the search tables ensure.
- Argument parsing, Markdown reports and the other command-line tools.
- `SectionReading.FitReturnData`: lists are values here, while the code pops from lists it shares with its argument; the second fit, which would see them shortened, is made for section requests only.
- `SectionReading.SafeData`: which keys are sensitive and which texts look like local paths are arguments; file paths and dates as values are not modelled.
- Floating-point numbers and escaped surrogates in JSON input are refused by the model's reader.
- Base64 text with characters outside its alphabet, which Python discards, is refused by the model's decoder.
- `Tokenizer.NormalizeSearchTerms`: starts from text that is already normalized and case-folded.
- `SearchIndex.SearchDatabase.Reindex`: inserts passages in table order instead of sorted by document and ordinal; the index is a multiset, so the order is not visible.
- `Catalog.ProcessOne`: files do not change while they are processed, and links, classification and probes come with the file.
- The dry run of the selected records, the storage forecast and the output files of the catalog; `_mark_removed`, which finds nothing on a tree that does not change.
- `CatalogRun.InterruptionIsInvisible`: first runs over a tree and configuration that do not change; file digests, stems and the two sort keys are functions of the file.
- `IndexClient.ListThroughMcp`: index pages of the brief kind with a limit of 1 to 20, of a project that does not change meanwhile, and cursors that do not look like local paths.
- `ApprovalPreview.Chain`: the preparation chain is a fixed value and loading it succeeds or fails as an argument says; the 64-character checks of its hashes belong to that.
- The text of error messages and notes, timestamps of records, and audit fields that no rule reads.
- Extraction from PDF, DOCX, EPUB and HTML, network access, and backup and restore.
