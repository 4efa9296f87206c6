# AirTrack, modelled in Dafny

AirTrack is firmware for a small display that shows the nearest aircraft, or one
followed flight, from an ADS-B feed. This project models the parts of it that compute
something worth a proof, and proves what they are for:

- **The stream parser** (`Body`, `Response`, `StreamSpec`, `StreamHistory`, `StreamProof`,
  `StreamTheorems`, `StreamParser`). A byte-at-a-time automaton cuts aircraft objects out
  of a response that arrives in chunks of any size. The parser object is shown to follow a
  step function; the step function is shown to accept exactly the texts of documents that
  follow a short list of rules on tokens, and to hand over exactly the objects of the one
  array under the key "ac". The reference is a grammar of nested tokens and its text, which
  knows nothing of automaton states; a history of what has been read links the two.
- **The five nearest** (`BoundedInsertion`, `Candidates`) and **the target shown**
  (`TargetSelection`).
- **The feed worker** (`FeedWorker`, `FeedRuns`, `FeedStates`, `RouteCache`, `RouteDirection`): what is
  published over any run of polls, failures and waits, the followed flight held through
  missed polls, the identity lookups in turn, and the direction of a route.
- **The captive DNS responder** (`DnsName`, `DnsDecoder`, `DnsResponder`), against name
  expansion as section 4.1.4 of RFC 1035 defines it.
- **The settings record and its two slots** (`Settings`, `SettingsRecord`, `SettingsLayout`, `SettingsStore`).
- **The logo decoder** (`PngFilter`, `PngChunks`, `PngResample`, `PngColours`, `PngDecode`), against
  sections 3 and 6 of RFC 2083.
- **The calendar and the clock chip** (`Calendar`, `Rtc`), **UTF-8** (`Utf8`, against
  section 4 of RFC 3629), **the sighting table** (`Sightings`) and **the budget of paid
  lookups** (`LookupBudget`, `LookupRuns`, `LookupRepeats`, `LookupJobs`).

Code that changes state step by step is modelled by classes and array methods; each of
their contracts equates the new state with a function of the old one, and the main results
are about those functions, over every input or every run.

What stands in for code outside the repository: the JSON reader is any deterministic
function from the captured text to *malformed*, *rejected* or an aircraft; inflation,
CRC-32, the distance formula and the tests of a flight code are any functions; clocks, the
network's answers and the fate of a flash write are inputs. Distances and ages are real
numbers.

## Where the code and its comments differ

- A route's direction is said to turn on contrary evidence over two polls running
  (`components/adsb_client/adsb_client.c:108-109`). One contrary poll turns it, exactly when
  the direction was last supported more than 30 seconds before
  (`RouteDirection.OneContraryPoll`; `RouteDirection.OnePollTurns` has such polls).
- The cap of 12 paid lookups is said to hold in any rolling 24 hours
  (`components/flight_info/include/flight_info.h:35-36`). The day is a fixed one, and 24 can
  fall within about two minutes (`LookupRuns.RollingCapFails`). In a span of less than 24 hours the
  cap holds exactly when the count does not start again in it, or what the count shows at its
  reset and at the end, less what it showed at the start, is within the cap
  (`LookupRuns.CapHoldsExactly`).
- A further lookup for a followed flight is said to be made only if the last is 20 minutes old
  (`components/flight_info/flight_info.c:30-33`). Counting the lookups that the service makes
  for the followed flight, not those of dashboard checks, and while the flight followed stays
  the same: after a lookup that succeeded the next billed one is more than 20 minutes away,
  and after one that found nothing too, as long as no key is set (`LookupRepeats.TwentyMinutesKept`).
  Whatever keys are set and checks made in between, a cycle within 20 minutes of the last billed
  lookup is billed exactly when it is free for it, a lookup would be billed, and
  (`LookupRepeats.TwentyMinutesExactly`):
  - good details were left that the last lookup failed to refresh, and they are more than six
    hours old, or more than 20 minutes with a takeoff or an approach since; or
  - no good details were left, and the lookup has started afresh (a key was set, or the callsign
    can be looked up at last), or an error is more than ten minutes old.

  `UnreadableRepeats`, `FailedEventRepeats`, `StaleRepeats` and `KeyRepeats` are runs from the
  start that come to it by an error, an event, stale details and a key. Dropping a flight and following it again also starts afresh
  (`LookupRepeats.RefollowRepeats`).
- The sighting table is meant to write an aircraft once in a window. Of an aircraft whose route
  is not awaited, a further record falls within the window exactly when its entry was evicted
  in between (`Sightings.WrittenAgainExactly`). With at most 128 aircraft nothing is evicted
  (`Sightings.FewAircraftAreKept`); of 129 that come five to a snapshot, one snapshot after
  another from the start, the first is written again within the window (`Sightings.CrowdRepeats`).
- The list of the nearest can be out of order end to end, since the 0.001 NM tolerance is not
  transitive (`Candidates.ToleranceBreaksSorting`). It is in order exactly when the comparison
  is transitive on the aircraft kept (`Candidates.OrderedIffKeptTransitive`), which for up to
  five are all that were inserted (`Candidates.OrderedIffTransitive`). For more than five, being
  transitive on all inserted is sufficient (`Candidates.OrderedIfTransitive`) but not necessary
  (`Candidates.OrderedWithoutTransitive`).
- A response need not be valid JSON to be accepted: strings may stand in the "ac" array without
  commas (`StreamTheorems.AcceptsWhatIsNotJson`), and values are not checked.
  `StreamTheorems.AcceptsExactly` says precisely what is accepted.
- The clock chip's date is not checked against its month. The date read is the one held exactly
  when there is such a date, and otherwise one of the next month (`Rtc.DateRead`): 31 February
  is read as 3 March, in a leap year as 2 March (`Rtc.February31Reads`).

## Model

| member | source | states |
|---|---|---|
| StreamTheorems.AcceptsExactly | components/tracker/airtrack_tracker.c:369-563 | for every body in every chunking: accepted exactly when at most 8 MiB and the text of a document obeying the rules; the report is then the one that document's objects add up to |
| StreamTheorems.AcceptsDocuments | components/tracker/airtrack_tracker.c:369-563 | every document obeying the rules is accepted, and reported by its aircraft objects alone |
| StreamTheorems.AcceptedIsDocument | components/tracker/airtrack_tracker.c:369-550 | an accepted body is one balanced root object of the rules between white space |
| StreamTheorems.OneReading | components/tracker/airtrack_tracker.c:369-513 | a text is that of at most one document, so "the objects under ac" is well defined |
| StreamTheorems.AcceptedLimits | components/tracker/airtrack_tracker.c:471-500 | nesting at most 16; objects = rejected + inserted; at most five listed; LIVE exactly when one is listed |
| StreamTheorems.AcceptsWhatIsNotJson | components/tracker/airtrack_tracker.c:441-469 | a body with two strings side by side in the array is accepted as a response without aircraft |
| StreamTheorems.RereadText | components/tracker/airtrack_tracker.c:369-513 | reading the text of any history byte by byte rebuilds that history |
| StreamTheorems.RunReads | components/tracker/airtrack_tracker.c:515-536 | after any bytes without an error, the state is that of an admitted history with just this text |
| StreamTheorems.RunAdmits | components/tracker/airtrack_tracker.c:515-536 | the text of any admitted history is read without an error and leaves its state |
| StreamProof.StepMatches | components/tracker/airtrack_tracker.c:369-513 | one byte goes through without an error exactly when the history it makes is admitted, and the new state is that history's |
| StreamProof.ShrinkAdmitted | components/tracker/airtrack_tracker.c:369-513 | an admitted history is admitted at every earlier byte |
| StreamProof.KeyTest | components/tracker/airtrack_tracker.c:381-408 | the kept eight bytes and the escape flag decide whether the whole key is "ac" |
| StreamSpec.ChunkingDoesNotMatter | components/tracker/airtrack_tracker.c:515-563 | up to 8 MiB every chunking gives the same report or the same error as the whole body; beyond it all fail |
| StreamSpec.RunConcat | components/tracker/airtrack_tracker.c:515-536 | feeding two pieces in turn is feeding them joined |
| StreamSpec.TooLargeExactly | components/tracker/airtrack_tracker.c:369-513 | a byte makes the body too large exactly when an object passes 4096 bytes, a 17th bracket opens or the 8193rd object ends; every other error is a malformed body |
| Response.ScanIsRules | components/tracker/airtrack_tracker.c:441-513 | the left-to-right scan of the root ends well exactly when the rules on its tokens hold, with the value of the one key "ac" |
| Response.ScanAcMeaning | components/tracker/airtrack_tracker.c:451-469 | the two array flags hold exactly while objects and commas alternate |
| Body.GrowText | components/tracker/airtrack_tracker.c:369-513 | adding a byte to a history adds it to its text |
| Body.ShrinkGrow | components/tracker/airtrack_tracker.c:369-513 | taking the last byte away is undone by adding it |
| StreamParser.StreamParser.FeedByte | components/tracker/airtrack_tracker.c:369-513 | the object's fields after a byte are the step of its state, or the error the step gives |
| StreamParser.StreamParser.FeedQuoted | components/tracker/airtrack_tracker.c:381-408 | the same within a string |
| StreamParser.StreamParser.FeedList | components/tracker/airtrack_tracker.c:451-469 | the same directly in the aircraft array |
| StreamParser.StreamParser.FeedOpen | components/tracker/airtrack_tracker.c:470-479 | the same for an opening brace or bracket |
| StreamParser.StreamParser.FeedClose | components/tracker/airtrack_tracker.c:480-512 | the same for a closing brace or bracket |
| StreamParser.StreamParser.Feed | components/tracker/airtrack_tracker.c:515-536 | a chunk: refused whole beyond 8 MiB, else all its steps, the first error kept for good |
| StreamParser.StreamParser.Finish | components/tracker/airtrack_tracker.c:538-563 | the verdict and report as a function of the state |
| StreamParser.StreamParser.ParseAircraft | components/tracker/airtrack_tracker.c:184-348 | exactly one of error, one more rejected, or one more inserted, by the captured text |
| StreamParser.StreamParser.InsertCandidate | components/tracker/airtrack_tracker.c:159-182 | the shifted array is the bounded insertion into the old list |
| Candidates.NearestInOrder | components/tracker/airtrack_tracker.c:146-182 | after any insertions: as many as inserted up to five, each neighbouring pair in order |
| Candidates.ListedInTurn | components/tracker/airtrack_tracker.c:146-157 | each listed aircraft is nearer than the next; or as near within 0.001 NM and fresher; or as fresh too within 0.001 s, and of a lower address |
| Candidates.NearestAreNearest | components/tracker/airtrack_tracker.c:146-182 | where no two distances are within 0.001 NM: the list is by distance, and whoever is left out is farther than everyone listed |
| Candidates.StrCmpPrecedes | components/tracker/airtrack_tracker.c:156 | an address is lower at the first difference, or as the shorter |
| Candidates.NearestIsFirstFive | components/tracker/airtrack_tracker.c:146-182 | where the comparison is transitive: the first five of a stable sort of everything inserted |
| Candidates.StableSortExists | components/tracker/airtrack_tracker.c:146-182 | there such a stable sort exists |
| Candidates.CompareAntisymmetric | components/tracker/airtrack_tracker.c:146-157 | comparing the other way round flips the sign |
| Candidates.ToleranceBreaksSorting | components/tracker/airtrack_tracker.c:146-157 | three aircraft that end up farthest first |
| Candidates.OrderedIffKeptTransitive | components/tracker/airtrack_tracker.c:146-182 | with no address twice: the list is in order end to end exactly when the comparison is transitive on the aircraft kept |
| Candidates.OrderedIffTransitive | components/tracker/airtrack_tracker.c:146-182 | for up to five insertions: exactly when it is transitive on all inserted |
| Candidates.OrderedIfTransitive | components/tracker/airtrack_tracker.c:146-182 | for any number: transitive on all inserted is enough for order end to end |
| Candidates.OrderedWithoutTransitive | components/tracker/airtrack_tracker.c:146-182 | six aircraft that come out in order without it |
| Candidates.NearestKeepsAll | components/tracker/airtrack_tracker.c:159-182 | up to five, the list is a permutation of what was inserted |
| BoundedInsertion.StableSortUnique | components/tracker/airtrack_tracker.c:146-182 | there is only one stable sort |
| BoundedInsertion.BoundedIsPrefix | components/tracker/airtrack_tracker.c:159-182 | keeping only five at each step loses nothing of the first five |
| TargetSelection.TargetFilter.Apply | components/tracker/airtrack_tracker.c:570-613 | the list shown and the pending challenger as a function of the last list, the new one and the pending one; nothing past the count changes |
| TargetSelection.TargetExactly | components/tracker/airtrack_tracker.c:570-613 | over every run of polls: the leader becomes the target exactly when there was none, the old one left the list or leads, is more than a tenth farther, or the leader led the poll before while another was kept; otherwise the old target is in front, the others in their order |
| TargetSelection.SwitchesForAReason | components/tracker/airtrack_tracker.c:570-613 | over any run of polls a target changes only if it left the list, or the new one is at most 0.9 as far, or the new one also led the poll before |
| TargetSelection.ShownIsReordered | components/tracker/airtrack_tracker.c:602-608 | the list shown is the parsed one, or that with one aircraft moved to its front |
| TargetSelection.PendingInvariant | components/tracker/airtrack_tracker.c:594-612 | between polls the count is 0 or 1, and 1 only for the leader of the last poll while another was kept |
| TargetSelection.SecondLeadSwitches | components/tracker/airtrack_tracker.c:594-612 | a challenger that leads twice running is taken up |
| FeedRuns.EverySnapshotSound | components/adsb_client/adsb_client.c:197-259 | over every run the n-th snapshot published has sequence n, and shows aircraft exactly when live or stale; the wait asked for is at most 900 s |
| FeedRuns.StepIsSound | components/adsb_client/adsb_client.c:725-895 | one turn of the worker's loop keeps this and takes nothing published back |
| FeedRuns.WaitingSettles | components/adsb_client/adsb_client.c:191-213 | waiting on for the same reason publishes nothing |
| FeedRuns.HeldPositionIsExact | components/adsb_client/adsb_client.c:666-691 | through any run of missed or failed polls and waits the target shown is the same, and its position time is what it was less the time between the clock reads: never later, and exact where they coincide |
| FeedRuns.MissedKeepsPosition | components/adsb_client/adsb_client.c:666-691 | the same for one turn |
| FeedRuns.MissedPublishes | components/adsb_client/adsb_client.c:670-687 | a missed poll publishes a position at most 1800 s old, and does so exactly when the last target is the followed flight and its position is not older than that |
| FeedRuns.WithoutAPoll | components/adsb_client/adsb_client.c:197-259 | failures and waits keep the aircraft and the time of the last success |
| FeedRuns.ShowsTheSelection | components/adsb_client/adsb_client.c:800-814 | after any run the aircraft shown are, but for routes, those of the target selection over its successful polls |
| FeedRuns.TargetChangesForAReason | components/adsb_client/adsb_client.c:800-814 | over any run of the worker the target changes only in a successful poll and for one of the three reasons, the third with the old target kept at the poll before |
| FeedStates.TargetShownExactly | components/adsb_client/adsb_client.c:800-814 | the same of the target that the worker shows, over every run |
| FeedStates.FailureShows | components/adsb_client/adsb_client.c:247-259 | which error, wait and state a failed poll shows, for every HTTP status, and the backoff after it |
| FeedStates.BackoffIs | components/adsb_client/adsb_client.c:866-871 | over every run: the backoff is 5, 10, 20, 40, 80, 160, then 300 s by the failures in a row |
| FeedStates.WaitingShows | components/adsb_client/adsb_client.c:738-762 | without a location, network or time, in this order, the reason is shown, aircraft as stale |
| FeedStates.SearchingShows | components/adsb_client/adsb_client.c:221-245 | what the start of polling shows after such a wait, and nothing otherwise |
| FeedStates.PollSucceeds | components/adsb_client/adsb_client.c:800-814 | a successful poll shows live aircraft or none, without error or wait, at the time of its answer |
| FeedStates.NewFlightStartsOver | components/adsb_client/adsb_client.c:649-659 | a new flight starts with its first identity, unresolved |
| FeedStates.MatchesMeans | components/tracker/airtrack_tracker.c:615-626 | a flight is followed by address, callsign or registration, in any case |
| FeedStates.RoutesFromCache | components/adsb_client/adsb_client.c:697-723 | each aircraft gets its route, one way round or the other, from a cached answer that is still good; the first one without is the one to look up |
| FeedStates.AnswerIsCached | components/adsb_client/adsb_client.c:817-821 | after a lookup its answer is cached for the callsign, and no other entry but the one given up changes |
| FeedRuns.LookupIsPlausible | components/adsb_client/adsb_client.c:649-691 | the lookup in use is always one of those plausible for the flight |
| FeedRuns.AnswerPins | components/adsb_client/adsb_client.c:661-672 | once a lookup has answered it is kept while the flight is the same |
| FeedRuns.MissesTakeTurns | components/adsb_client/adsb_client.c:688-690 | n misses move the lookup on by n, round and round |
| FeedRuns.EveryIdentityTried | components/adsb_client/adsb_client.c:688-690 | each plausible identity is tried within as many polls as there are |
| FeedRuns.EnrichOnlyRoutes | components/adsb_client/adsb_client.c:697-723 | enrichment changes nothing but routes |
| FeedWorker.EnrichKeepsNames | components/adsb_client/adsb_client.c:697-723 | enrichment moves no cache entry and renames none |
| FeedWorker.Worker.RunCycle | components/adsb_client/adsb_client.c:725-895 | one turn of the loop makes exactly the state that the model's step gives, history of snapshots included |
| FeedWorker.Worker.OnSuccess | components/adsb_client/adsb_client.c:800-826 | the same for a parsed response |
| FeedWorker.Worker.OnFailure | components/adsb_client/adsb_client.c:835-870 | error, wait and backoff for each kind of failure |
| FeedWorker.Worker.AfterPoll | components/adsb_client/adsb_client.c:666-691 | the held target and the lookup afterwards |
| FeedWorker.Worker.Wait | components/adsb_client/adsb_client.c:197-213 | a waiting state: stale when aircraft are held, silent when nothing changes |
| FeedWorker.Worker.Search | components/adsb_client/adsb_client.c:221-245 | published only on leaving a state without requests |
| FeedWorker.Worker.Report | components/adsb_client/adsb_client.c:247-259 | a failure: aircraft kept as stale, else offline |
| FeedWorker.Worker.SyncFocus | components/adsb_client/adsb_client.c:650-659 | a new flight starts the lookups again |
| FeedWorker.Worker.EnrichFromCache | components/adsb_client/adsb_client.c:697-723 | the array enriched in place is the enrichment of the list; the first aircraft wanting a lookup is named |
| FeedWorker.Worker.PublishWithRoutes | components/adsb_client/adsb_client.c:813-825 | published once, and once more with the next number after a lookup |
| FeedWorker.Worker.LookUpRoute | components/adsb_client/adsb_client.c:817-821 | the entry found, or else allocated, holds the answer; callsigns stay distinct |
| RouteCache.RouteCache.Find | components/adsb_client/adsb_client.c:571-580 | the first entry for the callsign, or word that there is none |
| RouteCache.RouteCache.Allocate | components/adsb_client/adsb_client.c:582-598 | the first unused entry, or the first of those looked up longest ago, and no callsign twice |
| RouteCache.RouteCache.OrientRoute | components/adsb_client/adsb_client.c:600-647 | the entry and the aircraft after one poll, only that entry changed |
| RouteDirection.EvidenceReverses | components/tracker/airtrack_tracker.c:891-957 | listing the leg the other way negates the evidence, which is -1, 0 or 1 |
| RouteDirection.EvidenceMeans | components/tracker/airtrack_tracker.c:891-937 | evidence for the order listed exactly when the aircraft departs from the one airport, arrives at the other, or away from both heads for it; against it, the other way |
| RouteDirection.AngleIsLeast | components/tracker/airtrack_tracker.c:885-889 | the angle between two bearings: at most 180 degrees, and equal to their difference up to full turns |
| RouteDirection.ShownAsFlown | components/adsb_client/adsb_client.c:617-647 | an aircraft first seen departing, arriving or heading for an airport is shown from where to where it flies, confirmed, however the leg is listed; otherwise as listed, unconfirmed |
| RouteDirection.ShownAsSettled | components/adsb_client/adsb_client.c:617-647 | afterwards the order shown is that of the settled direction |
| RouteDirection.ReverseTwice | components/tracker/airtrack_tracker.c:939-957 | reversing twice changes nothing |
| RouteDirection.ListingDoesNotMatter | components/adsb_client/adsb_client.c:600-647 | over any run of polls an entry and its mirror keep opposite directions with equal times, and show the same route whenever it is confirmed |
| RouteDirection.DirectionRestsOnEvidence | components/adsb_client/adsb_client.c:617-647 | a confirmed direction rests on a poll that supported it within 12 hours, with only contrary evidence of the first 30 seconds since |
| RouteDirection.TurnsExactly | components/adsb_client/adsb_client.c:631-640 | contrary evidence turns a direction exactly when it is more than 30 s old |
| RouteDirection.OneContraryPoll | components/adsb_client/adsb_client.c:624-647 | after any polls, one contrary poll turns a held direction exactly when that is more than 30 s after it was last supported |
| RouteDirection.OnePollTurns | components/adsb_client/adsb_client.c:108-112 | such polls: north at 1 s, then south once at 32 s turns it, at 30 s does not, against the comment |
| DnsDecoder.DecodeName | components/captive_dns/captive_dns.c:139-222 | true exactly when the name has a finite expansion with pointers strictly back (none without compression), labels to 63 and 255 in all, that fits the buffer; then that expansion and its length in place; neither the visited bits nor the 512 steps refuse one |
| DnsName.OneExpansion | components/captive_dns/captive_dns.c:139-222 | a name expands in one way only |
| DnsName.PlainName | components/captive_dns/captive_dns.c:139-222 | without compression the expansion is the bytes themselves |
| DnsName.PointerWritten | components/captive_dns/captive_dns.c:161-179 | an offset written as a pointer, fourteen bits after two set ones, is read as that offset, and stands for the name there |
| DnsName.NoReturn | components/captive_dns/captive_dns.c:156-180 | a walk that has an expansion ahead never comes back to a visited offset |
| DnsName.AllVisited | components/captive_dns/captive_dns.c:156-160 | visited offsets that are all distinct are no more than the packet has |
| DnsResponder.ValidateResourceRecords | components/captive_dns/captive_dns.c:224-253 | true exactly when that many records stand one after the other, and where they end |
| DnsResponder.ParseQuery | components/captive_dns/captive_dns.c:255-302 | ignored, invalid or valid by the header, the one question and completeness; the question's type, class and name |
| DnsResponder.BuildResponse | components/captive_dns/captive_dns.c:304-349 | the buffer holds the response section by section, or nothing is written when it does not fit |
| DnsResponder.ResponseIsWellFormed | components/captive_dns/captive_dns.c:224-349 | every accepted query's response: non-empty, at most 287 bytes, ID and RD kept, question verbatim, complete by its own counts, itself ignored |
| DnsResponder.ResponseOctets | components/captive_dns/captive_dns.c:304-349 | octet by octet: authoritative, no error, recursion as asked; an address question, and no other, has one answer: type 1, class 1, 30 s, the portal address |
| DnsResponder.ClassifyMeans | components/captive_dns/captive_dns.c:259-272 | the flag bits, the length and the question count that make a packet ignored or valid |
| DnsResponder.Respond | components/captive_dns/captive_dns.c:381-396 | a packet gets such a response exactly when it is a valid query |
| DnsResponder.ResponseNames | components/captive_dns/captive_dns.c:304-349 | the answer's pointer expands to the question's name |
| SettingsRecord.EncodeSettings | components/config/airtrack_config.c:240-280 | the buffer is the current record of the settings |
| SettingsRecord.DecodeSettings | components/config/airtrack_config.c:282-368 | accepts exactly the records that pass magic, schema, length, checksum, ranges and validation, with their fields |
| SettingsRecord.Decode | components/config/airtrack_config.c:282-368 | whatever is decoded passes validation |
| SettingsRecord.RoundTrip | components/config/airtrack_config.c:240-368 | for all valid settings: encoding, then decoding, gives them back |
| SettingsLayout.RecordIs | components/config/airtrack_config.c:38-70 | every field of a record of every schema at its offset, numbers least octet first, the checksum taken with its own octets zero |
| SettingsLayout.DecodedWas | components/config/airtrack_config.c:282-368 | a record decoded had the magic, a known schema of its length and its own checksum, and its settings are within the limits |
| SettingsLayout.ValidMeans | components/config/airtrack_config.c:146-238 | settings are valid exactly within these limits and characters |
| SettingsLayout.DefaultsAreValid | components/config/airtrack_config.c:121-144 | the factory settings are valid |
| SettingsLayout.OldRecordsGain | components/config/airtrack_config.c:318-366 | what a record of schema 1 to 4 decodes to in the fields it does not have |
| SettingsRecord.DecodesEverySchema | components/config/airtrack_config.c:318-366 | a record of schema 1 to 5 decodes to its settings with exactly the later fields at their defaults |
| SettingsRecord.RecordsDiffer | components/config/airtrack_config.c:240-280 | two valid settings never share a record |
| SettingsStore.TargetIsSpare | components/config/airtrack_config.c:663-711 | a save never writes the slot that loading would use, exactly when the generations differ |
| SettingsStore.EqualGenerationsLose | components/config/airtrack_config.c:709-711 | with equal generations a torn save loses the loaded settings |
| SettingsStore.SaveIsAtomic | components/config/airtrack_config.c:676-728 | a save that ends in any way leaves loading at the old or at the new settings, generations distinct and never going back |
| SettingsStore.RunStaysDistinct | components/config/airtrack_config.c:645-728 | over every run of saves, cut short or not, the slots never have equal generations and the next target is never the loaded slot |
| SettingsStore.LoadsLastLanded | components/config/airtrack_config.c:645-728 | after every run loading gives the last save that landed |
| SettingsStore.NeverOlderThanCompleted | components/config/airtrack_config.c:645-728 | which is never older than the last completed one |
| SettingsStore.Nvs.Load | components/config/airtrack_config.c:645-674 | the readable slot of the higher generation, the first on a tie, else the defaults |
| SettingsStore.Nvs.Save | components/config/airtrack_config.c:676-728 | the slots after a save, whatever its write leaves and reports; success exactly when the flash reports it and the new record reads back, else which error |
| PngFilter.PaethIsNearest | components/flight_info/flight_png.c:26-37 | the nearest of the three neighbours to their estimate, ties in the order left, up, up-left |
| PngFilter.FilterMeans | components/flight_info/flight_png.c:43-72 | the five filter types by row and place: nothing, left, up, their mean, Paeth; zero outside the image |
| PngFilter.Unfilter | components/flight_info/flight_png.c:39-75 | in place: refused exactly for a filter type over 4; otherwise filtering the result gives back what the buffer held |
| PngFilter.UnfilterRow | components/flight_info/flight_png.c:43-73 | one row in place, given the rows above: refused exactly for a type over 4 |
| PngFilter.Recovers | components/flight_info/flight_png.c:39-75 | for every size, channel count and choice of filter types: unfiltering recovers exactly the pixels encoded |
| PngFilter.FilteredInjective | components/flight_info/flight_png.c:39-75 | filtering loses nothing |
| PngFilter.Undoes | components/flight_info/flight_png.c:53-68 | adding the prediction back modulo 256 undoes the subtraction |
| PngChunks.FirstPass | components/flight_info/flight_png.c:146-221 | succeeds exactly on the files the chunk rules accept, with their header, colours and count of image data; otherwise the error of the first chunk at fault |
| PngChunks.FaultStep | components/flight_info/flight_png.c:152-215 | a chunk at fault decides the error, whatever follows it |
| PngChunks.FaultMeans | components/flight_info/flight_png.c:152-215 | which of the three errors a chunk at fault gives, by its kind, its length and its place |
| PngChunks.ParsedExactly | components/flight_info/flight_png.c:146-221 | exactly these files pass: a supported header first, allowed chunks up to the end, 1 to 32768 octets of image data, colours for a picture with a palette |
| PngChunks.WrittenIsRead | components/flight_info/flight_png.c:152-162 | a chunk written with its length, kind, body and any checksum is read back, and what follows it as if it stood alone |
| PngChunks.SecondPass | components/flight_info/flight_png.c:229-247 | gathers exactly the image data that the first pass counted |
| PngChunks.ParsedIsDescribed | components/flight_info/flight_png.c:163-190 | an accepted file has one leading header chunk of a supported kind, at most 64 by 64 |
| PngChunks.ParsedColours | components/flight_info/flight_png.c:192-200 | the colours and their number are those of the last palette chunk, the opacity that of the last transparency chunk in a picture with a palette, else opaque |
| PngResample.SampleInside | components/flight_info/flight_png.c:87-128 | the samples of every pixel, for every colour type, lie inside the image |
| PngColours.StoredIsSource | components/flight_info/flight_png.c:87-128 | the source pixel is the stored colour, for each colour type, at its place |
| PngColours.OwnSize | components/flight_info/flight_png.c:253-286 | a picture decoded at its own size gives each stored colour over the background, rounded down, in 565 |
| PngColours.OpaqueAndTransparent | components/flight_info/flight_png.c:272-283 | an opaque pixel comes out in its own colour, a transparent one in the background colour |
| PngColours.ContributionMixes | components/flight_info/flight_png.c:272-275 | what a pixel adds is its colour by its opacity and the background by the rest, rounded down |
| PngColours.MixedMonotone | components/flight_info/flight_png.c:272-275 | more opaque is never farther from the colour |
| PngColours.AverageIsMean | components/flight_info/flight_png.c:279-281 | a channel is the mean of its box, rounded down |
| PngColours.BoxesAddUp | components/flight_info/flight_png.c:257-278 | when not enlarging, the boxes of all output pixels add up to the whole image |
| PngColours.Enlarging | components/flight_info/flight_png.c:257-265 | when not shrinking, an output row covers the one source row that it falls in |
| PngResample.SpanInside | components/flight_info/flight_png.c:257-265 | every output row and column covers a non-empty span inside the image |
| PngResample.CoveredOnce | components/flight_info/flight_png.c:257-265 | shrinking, each source row is covered by exactly one output row |
| PngResample.PixelUsedOnce | components/flight_info/flight_png.c:257-278 | shrinking in both axes, each source pixel is used exactly once |
| PngResample.AverageBetween | components/flight_info/flight_png.c:266-281 | a channel lies between the least and the greatest blended contribution |
| PngResample.PixelFields | components/flight_info/flight_png.c:279-283 | the three fields of an output pixel are the averages, and never overlap |
| PngResample.Resample | components/flight_info/flight_png.c:253-286 | every output pixel is the packed average over its box |
| PngDecode.DecodeRgb565 | components/flight_info/flight_png.c:130-290 | succeeds exactly when sizes, signature, chunks, inflation and filter types allow, else with which error; the output is the resampled picture that the file was filtered from |
| PngDecode.OnePicture | components/flight_info/flight_png.c:39-75 | a file holds at most one picture |
| Calendar.EpochIsZero | components/sensors/board_sensors.c:136-149 | 1970-01-01 is day 0 |
| Calendar.NextCountsOne | components/sensors/board_sensors.c:136-149 | each Gregorian date to its successor counts exactly one day, for all years |
| Calendar.CountIncreases | components/sensors/board_sensors.c:136-149 | a later date has a greater count |
| Calendar.CountIsInjective | components/flight_info/flight_info_parse.c:105-113 | two dates never share a count (the same formula) |
| Calendar.CountOfCivil | components/sensors/board_sensors.c:136-149 | counting days from 1970 on reaches exactly the date whose count they are |
| Calendar.YearSpan | components/sensors/board_sensors.c:209-212 | a day falls in a span of years exactly when its count is between theirs |
| Rtc.BcdRoundTrip | components/sensors/board_sensors.c:97-105 | BCD there and back, and within each register's mask |
| Rtc.GmtimeInverts | components/sensors/board_sensors.c:151-158 | the seconds of the parts of a time are that time |
| Rtc.RegistersRoundTrip | components/sensors/board_sensors.c:160-239 | every second that can be set is read back unchanged |
| Rtc.RegistersShow | components/sensors/board_sensors.c:222-232 | the seven registers are the digits of seconds, minutes, hours, day, weekday, month and year |
| Rtc.RepresentableSpan | components/sensors/board_sensors.c:208-212 | these are exactly the seconds of 2000 to 2099 |
| Rtc.Clock.Set | components/sensors/board_sensors.c:202-239 | the registers after setting, the counter running again; refused outside 2000 to 2099 |
| Rtc.Clock.Get | components/sensors/board_sensors.c:160-200 | no time exactly when the oscillator has stopped; invalid exactly when a field is out of range; else a time whose clock reading and date are those of the registers, a day past its month counted on |
| Rtc.ReadingMeans | components/sensors/board_sensors.c:160-200 | the same of any seven registers |
| Rtc.DateRead | components/sensors/board_sensors.c:160-200 | the date read is the one held exactly when that date exists; otherwise the next month, by as many days as it is past |
| Rtc.February31Reads | components/sensors/board_sensors.c:160-200 | registers of 31 February of each year 2000 to 2099 read as 3 March, or 2 March in a leap year |
| Rtc.SetThenGet | components/sensors/board_sensors.c:160-239 | setting, then getting, gives the time back, for every time accepted |
| Utf8.ValidUtf8 | components/web/setup_web.c:1075-1132 | true exactly when the octets encode some Unicode scalar values, none of U+0080 to U+009F |
| Utf8.EncodesStep | components/web/setup_web.c:1075-1132 | a text is such an encoding exactly when its first character is and the rest is |
| Utf8.CharIsEncoding | components/web/setup_web.c:1086-1128 | every character the ranges let through is the encoding of an allowed scalar value |
| Utf8.EncodingIsChar | components/web/setup_web.c:1086-1128 | the encoding of every allowed scalar value passes the ranges, with its length |
| Sightings.SeenTable.SeenSlot | components/storage/storage_logger.c:325-348 | the aircraft's own entry, else a new one in the first free slot, else in slot 0 |
| Sightings.SeenTable.ShouldLog | components/storage/storage_logger.c:356-378 | the table and the decision after a sighting |
| Sightings.WrittenOncePerWindow | components/storage/storage_logger.c:350-378 | over any run two records of one aircraft are a whole window apart in true time, however the tick count wraps, unless its entry was evicted between them |
| Sightings.OneEntryEach | components/storage/storage_logger.c:325-348 | no two entries ever hold the same aircraft |
| Sightings.LeftOutForAReason | components/storage/storage_logger.c:356-378 | a sighting is left out only when its aircraft was written less than a window before, or waits for its route since less than the grace, by the tick count |
| Sightings.WrittenAfterWaiting | components/storage/storage_logger.c:356-378 | an aircraft held for its route is next written exactly when the route is no longer awaited or the grace has passed, in true time, unless evicted |
| Sightings.FirstSighting | components/storage/storage_logger.c:356-378 | the first sighting is written at once exactly when no route is awaited (or there is no grace) |
| Sightings.WaitingStep | components/storage/storage_logger.c:325-378 | one step of the wait: other aircraft leave it alone |
| Sightings.FewAircraftAreKept | components/storage/storage_logger.c:327-342 | with at most 128 aircraft no entry is ever evicted |
| Sightings.FewAircraftWrittenOnce | components/storage/storage_logger.c:325-378 | so then each is written at most once a window |
| Sightings.WrittenAgainExactly | components/storage/storage_logger.c:325-378 | an aircraft written once, its route not awaited, is next written less than a window later exactly when its entry was evicted in between |
| Sightings.FullTableRepeats | components/storage/storage_logger.c:340-342 | a full and busy table writes the aircraft of slot 0 again at once |
| Sightings.CrowdRepeats | components/storage/storage_logger.c:340-342 | 129 aircraft, five to a snapshot at successive times from the start, then the first again: it is written twice within the window |
| LookupBudget.FlightInfo.Serve | components/flight_info/flight_info.c:599-738 | one service cycle: its one job, the state after it, and whether a lookup was billed |
| LookupBudget.FlightInfo.ScheduleLookup | components/flight_info/flight_info.c:236-280 | billed exactly on status 200 or 201, whatever the body says; what each status means |
| LookupBudget.FlightInfo.CheckNow | components/flight_info/flight_info.c:559-597 | a check's result and its lookup |
| LookupBudget.FlightInfo.FollowedLookup | components/flight_info/flight_info.c:664-701 | the followed flight's lookup; good details outlive a failed refresh |
| LookupBudget.FlightInfo.ChangeFocus | components/flight_info/flight_info.c:359-396 | a new flight starts afresh, or with what a recent check of it paid for |
| LookupJobs.FollowedFinds | components/flight_info/flight_info.c:664-701 | which code is looked up for the followed flight, what each answer finds, when it is billed, and what stays |
| LookupJobs.CheckFinds | components/flight_info/flight_info.c:559-597 | the same for a dashboard check |
| LookupJobs.JobsInOrder | components/flight_info/flight_info.c:635-738 | one job a cycle: check, route, schedule, logo, quota, in this order, each when it is due, and what it changes |
| LookupJobs.NewFlight | components/flight_info/flight_info.c:359-396 | a new flight starts with what a check of the last 20 minutes found for it, else with nothing |
| LookupJobs.SameFlightGoesOn | components/flight_info/flight_info.c:599-634 | with the flight unchanged, events add up, a new leg asks for the route again, and nothing else changes but the day |
| LookupJobs.CheckSavesLookup | components/flight_info/flight_info.c:378-395 | details that such a check paid for are not looked up again when the flight is followed |
| LookupJobs.NewKeyStarts | components/flight_info/flight_info.c:880-897 | a new key has everything but good details looked up afresh, and counts nothing anew |
| LookupJobs.TriedAgainExactly | components/flight_info/flight_info.c:536-557 | over runs: the next lookup for one flight comes in the first free cycle more than 10 minutes after an error, 3 hours after nothing found, 6 hours after a refusal, no key having come |
| LookupRuns.EventTallies | components/flight_info/flight_info.c:215-282 | each cycle bills at most one lookup, counts it, never past the cap; only a day's end starts the count again |
| LookupRuns.CallsAreBills | components/flight_info/flight_info.c:215-256 | the count is exactly the lookups billed since it last started |
| LookupRuns.CapBetweenResets | components/flight_info/flight_info.c:215-234 | between two resets at most 12 are billed, whatever keys, flights and checks come |
| LookupRuns.ResetsADayApart | components/flight_info/flight_info.c:215-223 | two resets are at least a day apart |
| LookupRuns.TwiceTheCapADay | components/flight_info/flight_info.c:599-701 | within 24 hours of cycles at most 24 are billed |
| LookupRuns.SpanOverAReset | components/flight_info/flight_info.c:215-223 | what a span with one reset bills, from the count at its ends and at the reset |
| LookupRuns.CapHoldsExactly | components/flight_info/flight_info.c:215-234 | in less than 24 hours at most 12 are billed exactly when the count does not start again, or its two readings less the first are within the cap |
| LookupRuns.RollingCapFails | components/flight_info/include/flight_info.h:35-36 | a run, with five seconds between its checks, that bills 24 within about two minutes |
| LookupRepeats.TwentyMinutesExactly | components/flight_info/flight_info.c:536-557 | over runs with one flight, whatever keys and checks come: exactly when a cycle within 20 minutes of the last billed lookup is billed again, by what that one left behind; good details just fetched rule it out, and without a key only an error over ten minutes old allows it |
| LookupRepeats.TwentyMinutesKept | components/flight_info/flight_info.c:664-701 | with one flight: the next billed lookup is more than 20 minutes after one that succeeded, and after one that found nothing if no key is set in between |
| LookupRepeats.BilledWhen | components/flight_info/flight_info.c:599-701 | a cycle is billed for the followed flight exactly when it is free for it, the lookup is due and payable |
| LookupRepeats.SinceThrough | components/flight_info/flight_info.c:536-557 | with one flight, for 20 minutes or until the next billed lookup: good details stay, whatever keys come; what else a billed lookup left stays while no key comes |
| LookupRepeats.UnreadableRepeats | components/flight_info/flight_info.c:549-552 | from the start: an answer that cannot be read, billed again ten minutes on |
| LookupRepeats.FailedEventRepeats | components/flight_info/flight_info.c:680-698 | from the start: a refresh at takeoff that fails, billed again at the approach five minutes later |
| LookupRepeats.StaleRepeats | components/flight_info/flight_info.c:680-698 | from the start: a refresh after six hours that fails, billed again five seconds later |
| LookupRepeats.KeyRepeats | components/flight_info/flight_info.c:891-898 | from the start: nothing found, a key set, billed again five seconds later |
| LookupRepeats.RefollowRepeats | components/flight_info/flight_info.c:359-396 | from the start: good details, the flight dropped and followed again, billed again 15 seconds later |
| LookupRepeats.RefreshIsOld | components/flight_info/flight_info.c:536-557 | good details are refreshed only 20 minutes on, for a takeoff or an approach, or after six hours |
| LookupRepeats.StaleRefreshRepeats | components/flight_info/flight_info.c:680-698 | over runs: after a failed refresh of stale details the very next cycle is billed exactly when it is free and payable |

## Left out

- Tasks, locks, sockets, HTTP and TLS, the flash and file system, the screens and the
  dashboard: plumbing around the state that is modelled. A cycle of a worker is one step; a
  key or a check that arrives during one is modelled as arriving before or after it.
- JSON reading inside one aircraft object (`parse_aircraft`'s fields and ranges), inflation,
  CRC-32 and the distance formula: arbitrary functions here. A torn settings record is assumed
  not to decode.
- Rounding of `float` and `double`: distances, ages and angles are real numbers.
- Allocation failure, I2C and flash bus errors.
- Filling a route or a schedule from a network answer; the answer is an input.
- Flight phase, the trail, arrival estimates and logo fetching in the flight-information
  service: they enter only as the events that ask for a lookup or take a cycle.
- Snapshot fields that are only copied (response counts, settings generation) in the worker.
- OTA updates, connectivity, formatting, name tables, the battery curve and the night test:
  ordered library calls or single branches.
- Route reversal in place: an aircraft is a value, so `airtrack_route_reverse` is modelled as
  the function `RouteDirection.Reverse`.
- The wrap-around of 64-bit sequence numbers, millisecond clocks and of the 16-bit call count
  (capped at 12): unbounded integers here. The 32-bit tick count of the sighting table does wrap.
- SettingsRecord.Decode: text with a zero octet inside its stated length is cut at it, as C
  sees it, so two different records may decode alike; only records of the encoder are told apart.
- Candidates.OrderedIffKeptTransitive: asks that two aircraft of one address are the same; the
  parser does not refuse an address that is listed twice.
- Candidates.NearestIsFirstFive: asks for transitivity on what was inserted, which the
  tolerance does not always give; `Candidates.ToleranceBreaksSorting` is a case where it fails.
- Sightings.WrittenOncePerWindow: takes one window for the whole run.
- LookupRuns.TwiceTheCapADay: asks for a clock that does not go back and reads above zero (a day
  that starts at 0 ms counts as not started, `components/flight_info/flight_info.c:217`).
- FeedRuns.HeldPositionIsExact: takes the device's clock not to go back between successful polls.
