# Verified models of ipa-diagnose

ipa-diagnose explains FreeIPA problems: it evaluates access questions, correlates ipa-healthcheck findings, diagnoses
clients, and writes sanitized support bundles. These Dafny modules model the seven engines of it that carry real
invariants, and prove them over every input, every run and every reachable state.

`dafny verify dfyconfig.toml` checks everything.

| file | models |
|---|---|
| `Relations.dfy` | the relationship index and its breadth-first search for the shortest membership chain |
| `AccessChains.dfy` | the budgeted search for nested groups over a directory with cycles and diamonds |
| `Access.dfy`, `Authentication.dfy` | the explanation of one HBAC rule; the authorization and authentication verdicts |
| `Engine.dfy`, `Correlate.dfy` | diagnoses and findings; demotion of symptoms, ranking of roots, the status policy |
| `Unexplained.dfy` | the safety net for findings no rule claims, and one whole server diagnosis |
| `Spans.dfy`, `Lookups.dfy` | merging and redacting the spans of secret detectors; bisect lookups; the chunker |
| `Pseudonyms.dfy` | the pseudonym table of a bundle and its phases |
| `JsonWalk.dfy` | the two bounded walks over a member's tree, discovery and transformation, and how the one informs the other |
| `Secrets.dfy` | removing the values of secret fields from every text |
| `Dnsq.dfy` | the DNS codec: names with compression, SRV responses |
| `EnvGraph.dfy` | the bounded environment graph and its three-state facts |
| `Baseline.dfy` | the saved baseline over runs of diagnose and verify |
| `Client.dfy`, `ClientReport.dfy`, `ClientRules.dfy`, `ClientGaps.dfy` | client rules as a table; causes, roles and verdicts; the rules as they run; missing checks |
| `Common.dfy` | options and results, text order, a stable sort, the pigeonhole argument |

An object whose methods change its fields is a class here, and every method is tied to a function or a predicate about
its state; what the program promises is proved about those. Answers that come from outside (FreeIPA's API, regular
expressions, diagnostic packs, fresh checks) are parameters, so the results hold for every answer.

Where the code does not do what its own documentation says, the model follows the code. For each such promise an input
that breaks it is given and, in both directions unless the line says otherwise, the exact condition under which it holds:

- Access explanation: "CONTRADICTING" (`access/evaluate.py:542-557`) is right exactly unless the service does not fit into
  the index and an enabled rule, whose user and host sides match, hangs on a group of that service (`Access.Explain`). An
  index of any size that a user's own groups fill breaks it (`Access.FullIndexContradicts`).
- Discovery: "everything that can reach a member must have been discovered" (`bundle/sanitize.py:927-928`) holds of a tree,
  however texts are cleaned, exactly when every value that is written and is not JSON was discovered as a text elsewhere
  (`JsonWalk.DiscoveredExactly`); a single such value breaks it (`JsonWalk.UndiscoveredIsShown`). This is about the two walks as
  functions of any value: `bundle/build.py` projects the members it discovers to JSON before.
- Secret values: a tracked value is removed "anywhere when long, as a whole token when short" (`bundle/sanitize.py:228-230`). Of a
  value found in the text, without brackets, and long or delimited by its own first and last character, a match is left
  exactly if the marker itself holds one and a marker was written (`Secrets.ListedValueIsGone`, `Secrets.MarkerShowsItsWords`).
  A short value that ends in a character of no word can be left as a token (`Secrets.TokenAppears`).
- Secret fields: "[REMOVED], null or a truth value" stands under a secret-named field exactly unless a null or a truth value
  lies at the depth bound, where "[OMITTED: nested too deeply]" is written instead (`JsonWalk.HiddenFieldShows`,
  `JsonWalk.DeepNullIsRemarked`).
- Facts: the order of the reports is irrelevant to the state of a fact that was never dropped, given the established values,
  exactly when both orders or neither open with a report that is itself CONTRADICTED, or the values contradict each other
  anyway (`EnvGraph.OrderMattersExactly`, `EnvGraph.ContradictedReportsDependOnOrder`).
- Fix records: a run drops a record exactly under `Baseline.Releases` (`Baseline.FixIsReleasedExactly`), which includes a
  verify against the baseline of another host or mode all of whose diagnoses are found again
  (`Baseline.VerifyElsewhereForgetsTheFix`).
- The cache is considered only when IPA has the user and SSSD is online (`client/diagnose.py:5-7`), and in exactly one more case,
  SSSD down with cache errors in its log and a valid configuration (`ClientReport.CacheIsConsidered`,
  `ClientReport.CacheIsConsideredWhileDown`).
- SSSD is blamed only when DNS, network, TLS, time and the host key all passed (`client/diagnose.py:5-7`): of reported failures
  this holds (`ClientReport.SssdIsBlamedLast`), but SSSD being offline is its own cause whenever no upstream step has failed,
  also if none of them passed (`ClientReport.SssdIsBlamedUnchecked`).
- DNS: a serialized response is read back if it has at most four questions or no record. If the records that count are SRV
  records and the fifth question asks for another type, it is read back only then (`Dnsq.ResponseRoundTrip`); five questions
  about the root are not (`Dnsq.FiveQuestionsAreMisread`). Without that condition there is no converse
  (`Dnsq.FiveQuestionsMayAgree`).

Causal chains need a condition that the program does not state: every symptom leads to a reported root exactly when no set of
symptoms is explained only by one another (`Correlate.RootsExactly`). Two packs that name each other are such a set
(`Correlate.MutualUpstreamsHaveNoRoot`); no registered packs do, because the order they respect excludes all such sets
(`Correlate.RegisteredPacksRespectOrder`, `Correlate.SymptomLeadsToRoot`).

Two lemmas only spell out a definition for the reader and are not results: `Authentication.VerdictIsExact` (the authentication
cascade as one condition each) and `EnvGraph.AbsenceIsTrue` (the three answers about absence, for honest enumerations). Others
only fix what a table or a small function says: `Engine.RanksInOrder`, `Client.LayersRise`, `Common.LettersFold`, `Common.SpacesAre`,
`Secrets.WordCharsAre`, `Spans.MarkerTells`, `Dnsq.TextOfByte`, `Pseudonyms.NumbersBeginAtOne` and `Access.ServiceIsKnown`.

## Model

| member | source | states |
|---|---|---|
| Relations.RelationshipIndex.GetNode | src/ipa_diagnose/access/relations.py:80-89 | nodes are shared by kind and lower-cased name; a full index refuses a new node, says so, and changes nothing |
| Relations.RelationshipIndex.AddEdge | src/ipa_diagnose/access/relations.py:91-103 | the edge is stored unless it is there already or the index is full; the adjacency lists stay exactly the edges grouped by source, without duplicates |
| Relations.RelationshipIndex.AddMemberships | src/ipa_diagnose/access/relations.py:105-110 | only membership edges of the child to the named groups are added, and no other node; unless a bound of the index was hit all direct and all indirect ones are there, and the index says so only if one was hit |
| Relations.RelationshipIndex.Parents | src/ipa_diagnose/access/relations.py:118-120 | exactly the stored membership edges that leave the node |
| Relations.RelationshipIndex.MembershipPath | src/ipa_diagnose/access/relations.py:122-141 | on any index, cyclic or not: a connected chain of direct memberships of minimum length, and none exactly when no chain of at most `max_depth` edges exists |
| Relations.ChainWithinReads | src/ipa_diagnose/access/relations.py:122-141 | every chain can be shortened to one whose inner stops are distinct groups that were read, so it has at most reads + 1 edges |
| AccessChains.DepthBoundHidesNothing | src/ipa_diagnose/access/relations.py:28 | with at most 40 groups read, what is linked at all is linked by a chain of at most 41 edges, below the depth bound of 50 |
| AccessChains.ClosedFindsNesting | src/ipa_diagnose/access/evaluate.py:484-523 | once the visited groups are closed under reading, every nesting below a wanted group is linked by stored edges |
| AccessChains.Run.ExpandChain | src/ipa_diagnose/access/evaluate.py:467-524 | terminates on cycles and diamonds; reads no group twice and at most 40 in all; adds only memberships the directory states; answers yes only if every chain is stored; finds every chain unless a read failed or a bound was hit; and with room for the groups and reads they take, known before the call, no bound is hit |
| AccessChains.Run.RecordRule | src/ipa_diagnose/access/evaluate.py:447-462 | a rule adds only edges from itself to what it lists and the question is about, and unless a bound was hit all of them |
| Access.TargetsAreListed | src/ipa_diagnose/access/evaluate.py:447-462 | what a rule lists on its three sides is exactly what is recorded as its targets |
| AccessChains.Run.ExpandBothSides | src/ipa_diagnose/access/evaluate.py:574-616 | user, host, service and rules share one index, and both sides one budget of 40 reads; every membership stored is one that FreeIPA states; without a bound hit every nesting is found on both sides, and with room for the question none is hit |
| AccessChains.ChainIsNesting | src/ipa_diagnose/access/evaluate.py:484-523 | a stored chain from an object is a nesting of groups that FreeIPA holds |
| Access.ExplainSide | src/ipa_diagnose/access/relations.py:233-264 | one entry for every reason: the category, the name, each of the first 20 listed groups in order, and the number of further ones; it covers the object exactly when FreeIPA's rule for one side does; each nested group is explained by a shortest stored chain or marked incomplete |
| Access.ReasonForEveryGroup | src/ipa_diagnose/access/relations.py:243-263 | within the bound every listed group the object belongs to is given, as the direct or nested group it is |
| Access.ListedInOrder | src/ipa_diagnose/access/relations.py:246 | the listed groups are exactly those of the object that the rule lists, each as often as it lists them, sorted by name without case |
| Access.Explain | src/ipa_diagnose/access/evaluate.py:529-558 | on every index: contradicting exactly when what is known contradicts FreeIPA's answer, and complete exactly when it agrees and nothing is unknown (every chain of a match, every object of a rule that did not match); with complete data and a known flag, "contradicting iff (enabled and covers) differs from FreeIPA's match" holds exactly unless the service does not fit and the rule hangs on one of its groups |
| Access.FullIndexContradicts | src/ipa_diagnose/access/evaluate.py:531-535 | a user's own groups fill an index of any size (that has at least as much room for edges as for nodes); the service does not fit, and a rule that FreeIPA matched through a group of the service, and that matches, is explained as contradicting |
| Access.ExplainQuestion | src/ipa_diagnose/access/evaluate.py:590-619 | from the directory to the explanations of the rules: every reason is given for user and host, and every complete chain spells out a nesting that FreeIPA holds; without a bound hit also every reason of the service, the exact status of every rule, and a complete chain wherever the directory holds one through readable groups; with room for the question no bound is hit |
| Access.Inquiry.Diagnose | src/ipa_diagnose/access/evaluate.py:561-638 | the authorization state is a function of FreeIPA's decisive answers alone, whatever rules and groups are read afterwards and even if the ticket is refused then; its explanation is complete exactly when no rule was cut, all are read and explained completely and no group read was refused, and contradicting exactly when a rule that is read contradicts |
| Access.Inquiry.Authorization | src/ipa_diagnose/access/evaluate.py:686-737 | explanations change the explanation status only, never the state: contradicting exactly when one of them is, complete exactly when all are and none is missing |
| Authentication.DecidedAccountsExist | src/ipa_diagnose/access/evaluate.py:628-638 | once the authorization is decided, authentication is refused only for a disabled or expired account |
| Correlate.Demote | src/ipa_diagnose/engine/correlate.py:178-219 | exactly the diagnoses that some diagnosis (possibly themselves) explains are demoted, each with the packs of all causes of a diagnosis of that id |
| Correlate.CausesExactly | src/ipa_diagnose/engine/correlate.py:173-219 | when one diagnosis explains another: a real problem that can break others, declared with severe evidence or related by the table, not excluded; an unconfirmed one hides neither a confirmed nor a more severe one, and unclaimed findings are absorbed only by a confirmed stopped service that explains each of them |
| Correlate.ExplainsSourceExactly | src/ipa_diagnose/engine/correlate.py:148-168 | which findings a stopped service explains: never disk space, always a service check, a crashed check of Directory Server's or of its own pack, of the others only certmonger's |
| Correlate.ImplicitPairsAre | src/ipa_diagnose/engine/correlate.py:112-129 | exactly what a stopped Directory Server, CA or name server and a full disk explain |
| Correlate.StandsForPack | src/ipa_diagnose/engine/correlate.py:87-104 | a stopped service, whatever its instance, stands for the pack that depends on it |
| Correlate.ImplicitLowersRank | src/ipa_diagnose/engine/correlate.py:112-129 | every entry of the implicit cause table points to a cause of lower rank |
| Correlate.CauseLowersRank | src/ipa_diagnose/engine/correlate.py:178-228 | under the order the packs declare, whatever explains a diagnosis has a lower rank, so causes never form a cycle |
| Correlate.RegisteredPacksRespectOrder | src/ipa_diagnose/engine/correlate.py:190-194 | the upstreams the registered packs declare respect that order |
| Correlate.AssignPriorities | src/ipa_diagnose/engine/correlate.py:251-276 | explained diagnoses are symptoms, unexplained warnings are warnings, the others are ranked; one of them at most is PRIMARY and no other outranks it |
| Correlate.BucketsAre | src/ipa_diagnose/engine/correlate.py:251-276 | the primary problem rests on severe evidence if any root does, and has the highest score among the roots of its kind; only an established warning that nothing explains is a heads-up |
| Correlate.ScoreGrows | src/ipa_diagnose/engine/correlate.py:63-69 | the score grows strictly with the severity of the evidence, the status, the confidence, and each of the first six corroborating pieces of evidence |
| Correlate.SymptomLeadsToRoot | src/ipa_diagnose/engine/correlate.py:251-276 | under the order of the packs every related symptom has a chain of causes ending at a PRIMARY or independent diagnosis |
| Correlate.RootsExactly | src/ipa_diagnose/engine/correlate.py:178-276 | in general every symptom has such a chain exactly when no set of symptoms is explained only by one another |
| Correlate.PrimaryExists | src/ipa_diagnose/engine/correlate.py:272-276 | a PRIMARY exists unless every diagnosis is an unexplained, established warning |
| Correlate.MutualUpstreamsHaveNoRoot | src/ipa_diagnose/engine/correlate.py:190-192 | two packs that name each other demote each other: a trap without a root |
| Correlate.UndiagnosedFindings | src/ipa_diagnose/engine/correlate.py:326-371 | exactly the findings that are no success and have no positive citation under an id of their own, each as often as it occurs, sorted by severity, source and check |
| Correlate.WorstFirst | src/ipa_diagnose/engine/correlate.py:371 | the worst findings come first, and within one severity by source and check |
| Correlate.ExplainedExactly | src/ipa_diagnose/engine/correlate.py:333-343 | a finding is explained exactly when some diagnosis cites it as positive evidence and no other finding shares its id |
| Correlate.BuildReport | src/ipa_diagnose/engine/correlate.py:231-301 | the exact condition of each overall status: HEALTHY without diagnosis, unexplained finding or gap; CRITICAL and DEGRADED by the severities and the primary problems, whatever evidence is missing; UNKNOWN without base evidence, NOT_FULLY_VERIFIED otherwise; diagnoses sorted by bucket and score, only a restarted certmonger softened |
| Correlate.BucketsInOrder | src/ipa_diagnose/engine/correlate.py:290 | the report lists the primary problem first, then independent ones, symptoms and warnings, each bucket by falling score |
| Unexplained.UnexplainedDiagnoses | src/ipa_diagnose/engine/unexplained.py:224-256 | every severe finding not claimed under an id of its own is shown by a diagnosis of the net, each stopped service once, and nothing else is said; a group cites the first six of its findings and has the worst severity of them all |
| Unexplained.UnclaimedExactly | src/ipa_diagnose/engine/unexplained.py:224-236 | a finding is left to the net exactly if it is an error or worse and no diagnosis cites it, for or against, or its id is shared |
| Unexplained.RunDiagnosis | src/ipa_diagnose/engine/run.py:13-28 | whatever the packs conclude, no finding fails silently, every symptom leads to a reported root, and HEALTHY means that nothing was found |
| Spans.MergeKeepsUnion | src/ipa_diagnose/bundle/sanitize.py:509-517 | merging sorted spans gives ordered disjoint intervals with the same union, each named after a span; spans are joined only where they overlap |
| Spans.IntervalsBegin | src/ipa_diagnose/bundle/sanitize.py:509-517 | intervals begin exactly at the starts of spans that no other span crosses |
| Spans.MergeNames | src/ipa_diagnose/bundle/sanitize.py:509-517 | an interval has the category of the first of the sorted spans that begin with it |
| Spans.SortFirst | src/ipa_diagnose/bundle/sanitize.py:509 | which is the longest span found there, of several the first one found |
| Spans.Rewrite | src/ipa_diagnose/bundle/sanitize.py:518-526 | the rewritten text is, position by position, the markers of the intervals that begin there and then the character if no interval covers it |
| Spans.RedactedHidesTheSpans | src/ipa_diagnose/bundle/sanitize.py:509-526 | one pass hides exactly the characters in the detectors' spans, keeps the others in order, and writes one marker per interval, with the category of the first longest span there |
| Spans.Redact | src/ipa_diagnose/bundle/sanitize.py:505-527 | at most four such passes, ended by the first that finds nothing; nothing is left to be found exactly when one of the texts after zero to four passes has no finding |
| Lookups.BisectRight | src/ipa_diagnose/bundle/sanitize.py:444 | splits a sorted list into what is not above and what is above the sought element |
| Lookups.CoverTable | src/ipa_diagnose/bundle/sanitize.py:482-488 | the merged table covers exactly what the spans found cover, with touching spans joined |
| Lookups.InTable | src/ipa_diagnose/bundle/sanitize.py:444-446 | looking at one interval of the table decides membership in the union of all spans |
| Lookups.KeepOutside | src/ipa_diagnose/bundle/sanitize.py:494-501 | the filter by bisection keeps exactly, in order, the spans that begin in no existing marker |
| Lookups.OutsideKeeps | src/ipa_diagnose/bundle/sanitize.py:493-501 | a span is kept exactly when it was found and begins in no marker |
| Lookups.LineStarts | src/ipa_diagnose/bundle/sanitize.py:472 | the ascending list of exactly the positions at which a line begins |
| Lookups.FirstTools | src/ipa_diagnose/bundle/sanitize.py:473-476 | of every line that has a tool, the first one is in the table |
| Lookups.TableFindsTools | src/ipa_diagnose/bundle/sanitize.py:477-481 | the table lookup answers whether some tool stands earlier on the same line |
| Lookups.Chunks | src/ipa_diagnose/bundle/sanitize.py:1209-1224 | the pieces join to the text; each but the last has more than half and at most all of its room, and ends at the last whitespace there that follows no comma, or where the room ends if there is none |
| Pseudonyms.PaddedReads | src/ipa_diagnose/bundle/sanitize.py:649 | the number written in a pseudonym is read back as that number, so a pseudonym in the input reserves its own number |
| Pseudonyms.ShownIsInjective | src/ipa_diagnose/bundle/sanitize.py:644-649 | two pseudonyms never have the same text |
| Pseudonyms.Sanitizer.Alloc | src/ipa_diagnose/bundle/sanitize.py:644-649 | the loop terminates at the first number above the last one that the input does not show |
| Pseudonyms.Sanitizer.Register | src/ipa_diagnose/bundle/sanitize.py:651-662 | an identity keeps its pseudonym and a form its first identity; a new identity gets a fresh number |
| Pseudonyms.Sanitizer.Structural | src/ipa_diagnose/bundle/build.py:456-472 | an empty name has no pseudonym; any other is answered by its canonical form as the table answers before and after, and what was given is remembered |
| Pseudonyms.AnswerIs | src/ipa_diagnose/bundle/build.py:456-472 | only generic service names, and well-known accounts that no text is to hide, stay readable; a registered identity is shown by the pseudonym of the texts |
| Pseudonyms.OnlySpaceDropped | src/ipa_diagnose/bundle/build.py:459 | the canonical form drops white space at both ends and nothing else inside |
| Pseudonyms.PseudonymsAreInjective | src/ipa_diagnose/bundle/sanitize.py:644-662 | in whatever order a run reserves, registers and looks up, two identities never share a pseudonym, and each carries its identity's class |
| Pseudonyms.NoTwoShareAText | src/ipa_diagnose/bundle/build.py:450-474 | nor the same written text |
| Pseudonyms.InputIsNeverReused | src/ipa_diagnose/bundle/sanitize.py:1110-1119 | a text of the input that looks like a pseudonym, reserved first, is never handed out later |
| Pseudonyms.AnswerChangesOnlyTooLate | src/ipa_diagnose/bundle/build.py:457-472 | an answer changes by one operation exactly when its identity is registered after it was answered structurally |
| Pseudonyms.AnswersChangeOnlyTooLate | src/ipa_diagnose/bundle/build.py:456-472 | over any operations an answer holds to the end exactly when its identity is never registered too late: a changed answer never comes back |
| Pseudonyms.PhasesKeepAnswers | src/ipa_diagnose/bundle/build.py:718-749 | in the order of a bundle, registrations before lookups, no answer ever changes, nor the pseudonym that replaces a name in the texts |
| Pseudonyms.Sanitizer.Build | src/ipa_diagnose/bundle/build.py:718-746 | reserving, registering and looking up in this order: every answer given on the way is the one the table gives at the end, a registered identity's being its pseudonym in the texts |
| JsonWalk.Discovery.Discover | src/ipa_diagnose/bundle/sanitize.py:924-985 | the walk looks into exactly the names, strings and owners within the depth and width bounds, in order, and collects exactly the values below secret names |
| JsonWalk.DiscoversExactly | src/ipa_diagnose/bundle/sanitize.py:924-985 | of every place within the bounds its text, the names of its fields and the owners it names are looked into, and the values below its secret names collected, and nothing else |
| JsonWalk.CollectedExactly | src/ipa_diagnose/bundle/sanitize.py:974-986 | below a secret name every value down to the depth bound is collected that is neither null nor a truth value |
| JsonWalk.VisitsAreLogged | src/ipa_diagnose/bundle/sanitize.py:924-946 | the texts it looks into are the names and strings within the bounds |
| JsonWalk.Transform | src/ipa_diagnose/bundle/sanitize.py:1147-1190 | for every tree, what the copy is: mappings keep their fields and lists their items, in order and up to the width bounds; texts are cleaned; null, truth values and finite numbers stay, other numbers become null; what lies too deep is remarked |
| JsonWalk.NewName | src/ipa_diagnose/bundle/sanitize.py:1166-1167 | the "#" loop terminates with the shortest extension that is not taken |
| JsonWalk.OneEntryPerField | src/ipa_diagnose/bundle/sanitize.py:1160-1177 | exactly one output entry per field kept, in order, none overwritten, under the cleaned name with the least number of marks; a secret or a serial number is removed, any other value copied |
| JsonWalk.OnlyItsNumbers | src/ipa_diagnose/bundle/sanitize.py:1188-1189 | a copy shows no number but finite ones of the original |
| JsonWalk.HiddenFieldShows | src/ipa_diagnose/bundle/sanitize.py:1168-1176 | under a secret or serial name stands the removal, null or a truth value, exactly unless one of the latter lies at the depth bound |
| JsonWalk.DeepNullIsRemarked | src/ipa_diagnose/bundle/sanitize.py:1150-1152 | a null under a secret-named field at the depth bound is written as the remark on the depth |
| JsonWalk.HiddenValuesHaveNoInfluence | src/ipa_diagnose/bundle/sanitize.py:1160-1177 | with texts cleaned in one way, the copy does not depend on anything under a raw, secret or serial-number field, at any depth |
| JsonWalk.WriteMembers | src/ipa_diagnose/bundle/build.py:741-746 | all members are discovered before any is written; texts are cleaned by what was learned from all |
| JsonWalk.HiddenValuesCountByWhatIsLearned | src/ipa_diagnose/bundle/sanitize.py:935-992 | the copies of a bundle depend on raw, secret and serial-number fields only through what discovery logged and the values it collected |
| JsonWalk.WithheldIsCollected | src/ipa_diagnose/bundle/sanitize.py:935-985 | whatever a copy withholds under a secret name was collected, to be removed from every other text |
| JsonWalk.OnlyDiscoveredIsShown | src/ipa_diagnose/bundle/sanitize.py:924-946 | every name and string of the copy is a fixed remark or was made from a text that discovery looked into, or from a value that is written and is not JSON |
| JsonWalk.DiscoveredExactly | src/ipa_diagnose/bundle/sanitize.py:927-928 | discovery sees everything that can reach a member, however texts are cleaned, exactly when every written value that is not JSON was discovered as a text elsewhere |
| JsonWalk.UndiscoveredIsShown | src/ipa_diagnose/bundle/sanitize.py:1190 | the walk writes a value that is not JSON although it was not discovered |
| Secrets.RemoveSecretValues | src/ipa_diagnose/bundle/sanitize.py:988-994 | after the loop over the collected values, longest first, no match of a value is left that has no bracket and is long or delimited by its own ends, unless it is a word of the marker and one was written; a value that was nowhere is not shown |
| Secrets.ListedValueIsGone | src/ipa_diagnose/bundle/sanitize.py:228-233 | the same for every text and every order of values of one length |
| Secrets.TokenAppears | src/ipa_diagnose/bundle/sanitize.py:989-992 | a short value that ends in punctuation becomes a token when a shorter one behind it is removed, and stays |
| Secrets.MarkerShowsItsWords | src/ipa_diagnose/bundle/sanitize.py:992 | a value that is a word of the marker is shown by the marker |
| Dnsq.EncodeName | src/ipa_diagnose/client/dnsq.py:50-57 | the labels with their lengths, or the error of the first label that is empty, too long or not ASCII |
| Dnsq.ReadName | src/ipa_diagnose/client/dnsq.py:60-88 | terminates on every byte string and offset, reads only inside the message, and agrees with the recursive reading of section 4.1.4 of RFC 1035 |
| Dnsq.Walk | src/ipa_diagnose/client/dnsq.py:60-88 | on success the offset behind the name lies behind its start and inside the message |
| Dnsq.NameRoundTrip | src/ipa_diagnose/client/dnsq.py:50-88 | every encoded name of at most 127 labels is read back, lower-cased and without trailing dots, inside any message |
| Dnsq.CompressedNameReadsBack | src/ipa_diagnose/client/dnsq.py:70-79 | labels followed by a backward pointer are read as those labels and the name at the pointer, within 16 jumps |
| Dnsq.PointerReadsBack | src/ipa_diagnose/client/dnsq.py:70-73 | an offset of fourteen bits is read back from its two octets (section 4.1.4 of RFC 1035) |
| Dnsq.ReadWasWritten | src/ipa_diagnose/client/dnsq.py:60-88 | whatever is read was written at that place: labels and a zero octet, or labels and a backward pointer |
| Dnsq.ParseSrvResponse | src/ipa_diagnose/client/dnsq.py:91-116 | on every byte string: an error, or at most 32 answers read inside the message |
| Dnsq.RecordsReadBack | src/ipa_diagnose/client/dnsq.py:103-115 | serialized records, compressed or not, are read back; only SRV records with enough data give answers |
| Dnsq.SrvRecordReadsBack | src/ipa_diagnose/client/dnsq.py:103-115 | an SRV record is read back with its numbers and its target, of which the first 253 characters are kept |
| Dnsq.ResponseParsed | src/ipa_diagnose/client/dnsq.py:91-116 | of every serialized response records are read from behind the first four questions on |
| Dnsq.ResponseRoundTrip | src/ipa_diagnose/client/dnsq.py:91-116 | a serialized response is parsed back to its response code and its SRV answers (RFC 2782) if it has at most four questions or no records; and only then, if the records that count are SRV records and the fifth question asks for another type |
| Dnsq.ResponseAnswers | src/ipa_diagnose/client/dnsq.py:91-116 | of a response with at most four questions each SRV record among the first 32 records gives one answer, in order, with its numbers and target, and nothing else does |
| Dnsq.FiveQuestionsAreMisread | src/ipa_diagnose/client/dnsq.py:99-115 | an answer with five questions is refused although its record can be read |
| Dnsq.FiveQuestionsMayAgree | src/ipa_diagnose/client/dnsq.py:99-115 | an answer with five questions can be parsed to what its records say, namely nothing |
| EnvGraph.KindOfRef | src/ipa_diagnose/environment/graph.py:94-103 | the kind read from a reference is the kind it was made with |
| EnvGraph.EveryRunIsValid | src/ipa_diagnose/environment/graph.py:168-234 | after every call sequence the bounds hold, facts are about present entities, and relations join present entities of the kinds permitted |
| EnvGraph.RefusedExactly | src/ipa_diagnose/environment/graph.py:168-222 | the only reasons why a call is refused |
| EnvGraph.JoinedExactly | src/ipa_diagnose/environment/graph.py:215-229 | between two entities a relation is stored exactly if it joins their kinds |
| EnvGraph.StoredStays | src/ipa_diagnose/environment/graph.py:168-229 | over every run an entity keeps everything but its evidence, which only grows, and a relation its first evidence |
| EnvGraph.StepStores | src/ipa_diagnose/environment/graph.py:168-234 | a call that loses nothing stores exactly what it is given |
| EnvGraph.FactsOnlyGetFirmer | src/ipa_diagnose/environment/graph.py:198-213 | a fact is never withdrawn, its state only moves up, and an established value is never replaced |
| EnvGraph.FinalStateIsByValues | src/ipa_diagnose/environment/graph.py:185-213 | over all reports: a fact never dropped is what its first report says if that is itself a contradiction, and otherwise unknown without an established value, established with one, contradicted with two or more, of which two are kept |
| EnvGraph.OrderMattersExactly | src/ipa_diagnose/environment/graph.py:185-213 | two runs that heard the same values leave the fact in the same state exactly when both or neither opened with a contradiction, or the values contradict each other |
| EnvGraph.ContradictedReportsDependOnOrder | src/ipa_diagnose/environment/graph.py:198-209 | an established value and a reported contradiction in the two orders leave different states |
| EnvGraph.NothingLostSilently | src/ipa_diagnose/environment/graph.py:273-275 | a graph that is not marked truncated holds everything that was put in |
| EnvGraph.UntruncatedNeverLoses | src/ipa_diagnose/environment/graph.py:210-212 | in such a run no fact is ever dropped |
| EnvGraph.EnvironmentGraph.AddEntity | src/ipa_diagnose/environment/graph.py:168-183 | one call is one step of the run |
| EnvGraph.EnvironmentGraph.AddFact | src/ipa_diagnose/environment/graph.py:185-213 | one call is one step of the run, error cases included |
| EnvGraph.EnvironmentGraph.AddRelation | src/ipa_diagnose/environment/graph.py:215-229 | one call is one step of the run, error cases included |
| Baseline.ReadPrevious | src/ipa_diagnose/verify.py:284-296 | exactly the saved and the carried diagnoses, a saved one taking precedence |
| Baseline.Compare | src/ipa_diagnose/verify.py:280-426 | each previous diagnosis gets the one outcome it deserves by the exact condition of each of the five, each damaged record is not verified, and exactly the new root conditions are listed |
| Baseline.ResolvedExactly | src/ipa_diagnose/verify.py:310-366 | RESOLVED exactly when a usable baseline and sufficient fresh evidence no longer show the diagnosis and every check of its saved fix passes |
| Baseline.OutcomesExactly | src/ipa_diagnose/verify.py:310-403 | each of the five outcomes is reported exactly under its condition on the previous diagnosis, the fresh evidence and the checks of the fix |
| Baseline.SavedIsFoundAgain | src/ipa_diagnose/cli.py:138-149 | what a run saves is found still present by a verify with the same evidence |
| Baseline.CarryForward | src/ipa_diagnose/verify.py:101-126 | exactly the records not shown again, not confirmed, and still present or still failing |
| Baseline.CarryDiagnoses | src/ipa_diagnose/verify.py:137-154 | the first saved entry of each carried fix whose diagnosis is gone (`Baseline.PickedAreFirst`) |
| Baseline.NoRunDamagesTheBaseline | src/ipa_diagnose/verify.py:404-413 | over any sequence of runs from an empty state every saved fix has its diagnosis in the baseline: the "diagnosis itself is missing" branch is unreachable |
| Baseline.VerifyLosesOnlyResolved | src/ipa_diagnose/verify.py:54-60 | after a verify a previous diagnosis is missing from the stored baseline exactly when it was resolved and the baseline was replaced |
| Baseline.FixIsReleasedExactly | src/ipa_diagnose/cli.py:138-149 | when a run drops a fix record: the exact condition for both commands; a record that is kept is the one shown again, or else the old one |
| Baseline.FixStaysUntilReleased | src/ipa_diagnose/cli.py:138-207 | over any runs a shown fix stays on record until one of them releases it |
| Baseline.VerifyElsewhereForgetsTheFix | src/ipa_diagnose/verify.py:110-111 | on another host a verify can drop a record whose fix was not checked |
| Baseline.Cli.CmdDiagnose | src/ipa_diagnose/cli.py:152-162 | one diagnose run as a step of the state machine |
| Baseline.Cli.CmdVerify | src/ipa_diagnose/cli.py:165-221 | one verify run as a step; against a baseline the exit code is 0 exactly when everything previous is resolved, nothing new was found, and the evidence is complete and healthy; a problem that remains, and an incomplete verification, have the codes of the command |
| Client.CausesAreDiagnosed | src/ipa_diagnose/client/diagnose.py:262-382 | what a diagnosis is blamed on was diagnosed too, fails, and is a cause of its own; only SSSD being offline is in turn blamed on something upstream |
| Client.UpstreamIsRoot | src/ipa_diagnose/client/diagnose.py:364-365 | the first failure upstream of SSSD is never itself explained by another one |
| ClientRules.Diagnose | src/ipa_diagnose/client/diagnose.py:78-545 | the rules as they run, with earlier entries changed in place, give exactly the report of the table of rules |
| ClientRules.Harden | src/ipa_diagnose/client/diagnose.py:264-290 | a warning about SRV records becomes a failure in place when the KDC could not be found without them |
| ClientReport.AssignRoles | src/ipa_diagnose/client/diagnose.py:548-568 | the loop over the sorted list gives every diagnosis its role as defined without the loop |
| ClientReport.OnePrimary | src/ipa_diagnose/client/diagnose.py:553-566 | there is one primary cause exactly when there is a cause, and no other cause lies in a lower layer |
| ClientReport.PrimaryComesFirst | src/ipa_diagnose/client/diagnose.py:567-568 | in the finished list the primary cause comes first and is the only one |
| ClientReport.RolesInOrder | src/ipa_diagnose/client/diagnose.py:567-568 | the report lists the roles from primary to warning, and within one role the lower layer first |
| ClientReport.EveryRelatedEndsAtCause | src/ipa_diagnose/client/diagnose.py:548-568 | for every trace, following `related_to` reaches in at most two steps a failure that is primary, independent or undiagnosed |
| ClientReport.SssdIsBlamedLast | src/ipa_diagnose/client/diagnose.py:364-382 | in every report SSSD being offline is related to something else exactly when a failure upstream of SSSD is reported |
| ClientReport.SssdIsBlamedUnchecked | src/ipa_diagnose/client/diagnose.py:364-382 | SSSD being offline is its own cause whenever no upstream step has failed, whether or not any was answered |
| ClientReport.CacheIsConsidered | src/ipa_diagnose/client/diagnose.py:338-352 | when a cache diagnosis is made: the exact condition |
| ClientReport.CacheIsConsideredWhileDown | src/ipa_diagnose/client/diagnose.py:342-353 | a trace in which the cache is considered although SSSD is down |
| ClientReport.VerdictsAreExact | src/ipa_diagnose/client/run.py:148-195 | for every trace each of the two verdicts fails exactly when the host is not enrolled or one of the listed rules applies that break authentication, or block runtime access; whatever fails and blocks does one of the two |
| ClientReport.StatusIsExact | src/ipa_diagnose/client/run.py:232-241 | healthy exactly when no rule applies and nothing is missing; a problem exactly when a failing rule applies; not fully verified exactly when the evidence could not be used, or is incomplete without a failure |
| ClientGaps.GapExactly | src/ipa_diagnose/client/run.py:66-82 | a skipped step is a gap exactly when following its blockers reaches one, within the bound |
| ClientGaps.CirclesAreNoGap | src/ipa_diagnose/client/run.py:78-82 | steps that block each other without end are no gap |

## Left out

- AccessChains.Run.ExpandChain: groups of one level, and the wanted groups, are taken in any order; the program sorts them by name.
- Bit masks of the DNS codec are written as arithmetic.
- Client.CausesAreDiagnosed: titles, confidence, evidence lists, hints and resolution keys of diagnoses; which facts have an unexpected type (that some have is a parameter of the status).
- Baseline.Compare: the order of the items is arbitrary; hand-edited or unreadable state files, sanitizing of ids on loading, and how a fix's criteria are rebuilt (a parameter).
- JsonWalk.Transform: cleaning, redacting and pseudonymizing one text is an arbitrary function of what discovery learned; the counters of removed and trimmed parts; the secret values tracked in the raw evidence before discovery are a parameter.
- Secrets.RemoveSecretValues: what the later steps of a text's pipeline (volume groups, pseudonyms, joining of white space, truncation) do to the result; which values are too trivial to be collected.
- Spans.Redact: the count of redactions per category; what the detectors match.
- Lower-casing folds ASCII letters only, and the white space that is stripped or looked for (Common.IsSpace) is ASCII only; the program uses Unicode for both.
- Pseudonyms.Sanitizer.Build: `bundle/sanitize.py:1069` would register a host while a text is rewritten, but its branch is for domains that the expression is never built with (`bundle/sanitize.py:1104`), so the model has no such registration.
- Wall-clock limits, the API call budget and the rate of calls; every call may fail in the model instead.
- The serialization of the index's nodes and edges.
- The line-based secret detector, the regular expressions, Unicode cleaning, and replacement of identities in texts.
- Diagnostic packs, collection of evidence and the text of ipa-healthcheck messages; a finding carries whether its check crashed and which service it reports stopped.
- Correlation notes (`why`, titles of causes) and the hints of an incomplete report; diagnoses are values here, so a list that holds one diagnosis object twice is not modelled.
- Scores are exact reals; the program uses binary floating point.
- Cleaning of texts and values in the environment graph, and its sorted serialization.
- Replication mode, the AI providers, console and JSON rendering, archive writing.
