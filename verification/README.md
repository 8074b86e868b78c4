# Paragraph modification aggregate and institution tagging

A Dafny model of two pieces of a public-consultation platform. On the
platform, organisations submit statements that propose modifications to the
paragraphs of a legal text.

- **The paragraph aggregate** (`paragraph_aggregate.dfy`, with
  `modification.dfy` and `newest_first.dfy`) is the in-memory view of one
  paragraph. It holds the modifications proposed for the paragraph in three
  ordered lists: *open* (awaiting a decision), *refused* (rejected by
  moderation) and *foreign* (belonging to another party). It also holds an
  optional *chosen* modification, which is the accepted wording. When a
  moderator's decision changes the chosen modification, the view is updated
  without a reload:
  - the new chosen modification's first identity match is removed from each
    list;
  - the displaced modification joins the open list;
  - the open list is re-sorted newest first.
- **The tagging service** (`tagging_service.dfy`) maps the name of the federal
  office that published a consultation to topic tags from a fixed vocabulary
  of twenty slugs. A name the table does not know yields the sentinel
  `Unmatched`.

The aggregate is a value here, and the transition is a pure function that
returns the object's state after the call. A modification is reduced to its
identity and its creation time, which are the only two things the aggregate
reads. The paragraph, the free texts and the peer statements are type
parameters that the aggregate carries unchanged. Creation times are integers:
comparing two of them stands for comparing the entity's date-time values.

The tag lookup is a table of 126 arms tried in order, each keyed by one exact
institution name, as the source's `match` expression is. Topics are an
enumeration whose `Slug` is the string the service returns. This lets the
table's tag lists be checked against the vocabulary once. The lookup is
written against the table's name function as a parameter (`FirstArm`), so
its proof does not unfold the 126 literal names.

## Model

| member | source | states |
|---|---|---|
| ParagraphAggregate.AllModifications | src/Aggregate/ParagraphAggregate.php:35-38 | the result lists the open, then the refused, then the foreign modifications, each block in its own order; its length is the sum of the three lengths; the chosen modification is not added |
| ParagraphAggregate.WellFormedByList | src/Aggregate/ParagraphAggregate.php:23-38 | the combined list repeats no identity if and only if each of the three lists repeats none and no two lists share an identity |
| ParagraphAggregate.IdsOfAll | src/Aggregate/ParagraphAggregate.php:35-38 | the identities of the combined list are exactly those of the open, refused and foreign lists together |
| ParagraphAggregate.RemoveModificationFromList | src/Aggregate/ParagraphAggregate.php:67-75 | the scan shortens the list by exactly one entry when some entry has the needle's identity and leaves the length alone otherwise; it never adds an entry |
| ParagraphAggregate.RemovesFirstMatch | src/Aggregate/ParagraphAggregate.php:67-75 | the scan drops exactly the entry at the first position whose identity equals the needle's and keeps all other entries in order; with no match the list is returned unchanged |
| ParagraphAggregate.NoMatchNoChange | src/Aggregate/ParagraphAggregate.php:69-74 | when no entry has the needle's identity, the removal is a no-op |
| ParagraphAggregate.RemovalKeepsLaterDuplicate | src/Aggregate/ParagraphAggregate.php:69-73 | the scan stops after the first match, so a later entry with the same identity survives: a list that repeats an identity is only partly cleaned |
| ParagraphAggregate.RemovalFromDistinct | src/Aggregate/ParagraphAggregate.php:67-75 | removal introduces no identity; from a list without repeated identities it leaves none with the needle's identity and repeats none |
| ParagraphAggregate.ChangeChosenModification | src/Aggregate/ParagraphAggregate.php:43-61 | afterwards the chosen slot is the new value, and an absent value clears it; refused and foreign lose the first match of the new chosen identity and nothing else, or are untouched when no new value is given; they never gain an entry and lose at most one; the open list is newest first and is a permutation of the old open list minus the first match, plus the displaced modification if given; paragraph, free texts and peers are unchanged |
| ParagraphAggregate.OpenLosesFirstMatch | src/Aggregate/ParagraphAggregate.php:47-57 | the open list afterwards holds, in some order, the old open list without the first match of the new chosen identity, plus the displaced modification; with no new value nothing is removed |
| ParagraphAggregate.WithoutFromDistinct | src/Aggregate/ParagraphAggregate.php:47-52 | a list with no repeated identity, after the removal of the new chosen modification, still repeats none, gains no identity and no longer holds the chosen identity |
| ParagraphAggregate.OpenBeforeSort | src/Aggregate/ParagraphAggregate.php:47-57 | before the re-sort, the open list repeats no identity and lacks the new chosen identity when the displaced modification was in no list and differs from the new one; its identities come from the old open list and the displaced modification |
| ParagraphAggregate.OpenAfter | src/Aggregate/ParagraphAggregate.php:47-60 | the same facts hold for the re-sorted open list |
| ParagraphAggregate.PartitionPreserved | src/Aggregate/ParagraphAggregate.php:43-61 | suppose no identity repeats across the three lists, the displaced modification is in none of them, and it is not the new chosen one; then afterwards no identity repeats across the lists and the new chosen identity is in none of them |
| ParagraphAggregate.ListsAfter | src/Aggregate/ParagraphAggregate.php:43-61 | list by list: under the same hypotheses, each list afterwards repeats no identity, no two lists share one, and none holds the new chosen identity |
| ParagraphAggregate.DecisionKeepsWellFormed | src/Aggregate/ParagraphAggregate.php:43-61 | a well-formed view stays well-formed when a different modification is chosen, or the choice is cleared, and the one previously chosen is handed back as the displaced modification |
| ParagraphAggregate.RechoosingBreaksPartition | src/Aggregate/ParagraphAggregate.php:45-56 | choosing again the modification that is already chosen, with it handed back as the displaced one, leaves it both chosen and open, so the partition invariant no longer holds |
| ParagraphAggregate.OldEntersOpenOnce | src/Aggregate/ParagraphAggregate.php:55-60 | a displaced modification that was not already open occurs exactly once in the open list afterwards |
| ParagraphAggregate.RepeatDuplicatesOld | src/Aggregate/ParagraphAggregate.php:43-61 | the transition is not idempotent: repeating it with the same arguments changes no list except open, which gains a second copy of the displaced modification |
| ParagraphAggregate.ScenarioChooseRefused | src/Aggregate/ParagraphAggregate.php:45-60 | worked example: choosing the refused M2 empties the refused list, and the open list becomes [M3, M1] |
| ParagraphAggregate.ScenarioReplaceChosen | src/Aggregate/ParagraphAggregate.php:45-60 | worked example: then choosing M1 with M2 displaced gives the open list [M3, M2] |
| ParagraphAggregate.SortedExample | src/Aggregate/ParagraphAggregate.php:59 | the re-sort of two modifications with different creation times puts the newer one first |
| ParagraphAggregate.TwoNewestFirst | src/Aggregate/ParagraphAggregate.php:59 | the only newest-first order of two modifications with different creation times puts the newer one first |
| NewestFirst.Insert | src/Aggregate/ParagraphAggregate.php:59 | inserting into a newest-first list keeps it newest first and adds exactly the one entry |
| NewestFirst.SortNewestFirst | src/Aggregate/ParagraphAggregate.php:59-60 | the re-sorted list is non-increasing in creation time and is a permutation of its input |
| NewestFirst.NewestFirstUnique | src/Aggregate/ParagraphAggregate.php:59 | when creation times are pairwise distinct, there is only one newest-first permutation, so the result does not depend on the sorting algorithm |
| NewestFirst.SortDistinctIsStrict | src/Aggregate/ParagraphAggregate.php:59 | with pairwise distinct creation times the re-sorted list is strictly decreasing in creation time |
| TaggingService.SlugNamesTag | src/Service/TaggingService.php:10-31 | every topic's slug names the topic back |
| TaggingService.NamedTagHasSlug | src/Service/TaggingService.php:10-31 | a string that names a topic is that topic's slug |
| TaggingService.SlugRoundTrip | src/Service/TaggingService.php:10-31 | every topic's slug names the topic back, and a string that names a topic is that topic's slug |
| TaggingService.VocabularyPositions | src/Service/TaggingService.php:10-31 | the vocabulary lists each topic at exactly one position |
| TaggingService.TagsAreSlugs | src/Service/TaggingService.php:10-31 | `TAGS` has twenty entries, and entry i is the slug of the i-th topic of the vocabulary |
| TaggingService.VocabularyMatchesTags | src/Service/TaggingService.php:10-31 | `TAGS` holds twenty pairwise distinct slugs and contains the slug of every topic |
| TaggingService.NewServiceHoldsVocabulary | src/Service/TaggingService.php:36-41 | the constructed service's tag list has twenty distinct slugs: every topic's slug and nothing else |
| TaggingService.ArmTags | src/Service/TaggingService.php:51-176 | no arm of the table lists a topic twice |
| TaggingService.SlugsValid | src/Service/TaggingService.php:51-176 | a topic list without repetition turns into slugs that are all in `TAGS`, with none repeated |
| TaggingService.FirstArm | src/Service/TaggingService.php:50-177 | the arm found carries exactly the given name and no earlier arm does; no arm found means that no arm from the start position on carries the name |
| TaggingService.ExtractTags | src/Service/TaggingService.php:48-181 | every slug the lookup hands out is in `TAGS`, and no slug repeats |
| TaggingService.UnmatchedIffUnlisted | src/Service/TaggingService.php:50-178 | the lookup gives the sentinel if and only if no arm of the table carries exactly the given name |
| TaggingService.TagsFromMatchingArm | src/Service/TaggingService.php:50-177 | a list answer is the slug list of the first arm that carries exactly the given name: that arm carries it and no earlier arm does |
| TaggingService.EnergyExample | src/Service/TaggingService.php:51 | 'Bundesamt für Energie' gives ['energie'] |
| TaggingService.EmptyListExample | src/Service/TaggingService.php:51-52 | 'Parlamentsdienste' gives the empty list, which is distinct from the sentinel |

## Left out

- Persistence, HTTP controllers, the admin screens and the consultation
  repository are not modelled. They are framework plumbing around the two
  cores, and their behaviour lives in the ORM and the web framework.
- `TaggingService::getTagEntity` is not modelled because it is a repository
  lookup. The `Tag` entities it returns are not modelled either; a tag is its
  slug.
- The entity contents of paragraphs, free texts, modifications and
  statements are not modelled. Only a modification's identity and creation
  time are read by the aggregate.
- The aggregate's constructor is the datatype's constructor. It checks
  nothing, as the source does not. Disjointness of the input lists is the
  loader's responsibility; `WellFormed` states it, and the lemmas take it as a
  precondition.
- The key gaps that PHP's `unset` leaves and the `array_values` reindexing
  that follows are not modelled. The lists are sequences, so they have no gaps
  to begin with.
- NewestFirst.SortNewestFirst: the contract does not fix the order of entries
  with equal creation times. The insertion sort used is stable, as PHP 8's
  `usort` is, but the tie order is not part of the modelled promise.
- ParagraphAggregate.DecisionKeepsWellFormed: the lemma asks for a new
  chosen modification different from the one it displaces. That is a limit
  of the source, not of the model. The source does not guard against choosing
  the current choice again. It then hands the displaced modification, which
  is that same one, back to the open list, so it ends up both chosen and open.
  `RechoosingBreaksPartition` states this.
- No example states that an unknown spelling such as 'Bundesamt fur Energie'
  gives the sentinel. `UnmatchedIffUnlisted` states the general rule: a name that no
  arm carries gives `Unmatched`. Evaluating all 126 names for one concrete
  string is beyond the verifier's budget. For the same reason the examples
  stop at the second arm ('Bundeskanzlei', the 28th arm, is not evaluated).
- A validating mode that reports a violated partition instead of tolerating
  it is not modelled, because the source has none. The source tolerates a
  missing target and repeated identities silently, and the model does the
  same; `RemovalKeepsLaterDuplicate` and `NoMatchNoChange` state that
  behaviour.
