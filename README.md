# agentic-issues, modelled in Dafny

A model of the core of the `agentic-issues` tracker. It covers four parts:

- **The issue entity.** The status and priority enumerations, the comment and issue records, the `Issue.create` factory and the five mutators, which change an issue in place and stamp `updated_at`.
- **The storage layer.**
  - The encoder (`EnhancedJSONEncoder`) and the decoder (`_decode_issue`), between an issue and a JSON value tree.
  - The per-project list operations of `IssueStorage`. The disk is a map from project id to file content, and the content is either text that is not JSON or the value it parses to.
- **The query logic of the two command lines.** The filter and sort block of `cmd_list` and the label parsing of `cmd_submit` in `cli.py`. The `list`, `submit` and `update` branches of `issue_command` in `ag_issues.py`, with their exit codes.
- **The legacy store in the second half of `cli.py`.** One JSON database with integer ids, covering `load_issues`, `create_issue`, `update_issue` and `close_issue`.

Time stamps are concrete, valid naive `datetime` values. `isoformat` and `fromisoformat` are modelled on the two text shapes `isoformat` writes, and their round trip is proved. The order of time stamps is Python's field-by-field comparison. It is proved equal to the order of an integer ordinal, which serves as the sort key. `list.sort(key=...)` is a stable insertion sort on integer keys. A sort with `reverse=True` is the same stable sort on the negated key.

The files:

| file | contents |
|---|---|
| `wrappers.dfy` | `Option` and `Result` |
| `json.dfy` | the JSON value tree and Python's truth value of a loaded value |
| `time.dfy` | time stamps, their order, `isoformat`/`fromisoformat` |
| `text.dfy` | `strip`, `lower`, `split`, string `<` |
| `seqs.dfy` | filtering comprehensions and the stable sort |
| `models.dfy` | `models.py` |
| `storage.dfy` | `storage.py` |
| `cli.dfy` | `cmd_list` filter/sort and `cmd_submit` labels of `cli.py` |
| `ag_issues.dfy` | `list`, `submit` and `update` of `ag_issues.py` |
| `legacy.dfy` | the legacy database of `cli.py` |

## Model

| member | source | states |
|---|---|---|
| Models.ParseStatus | src/agentic_issues/models.py:12-17 | `IssueStatus(v)` is the status whose value string is exactly `v`, and fails for every other string |
| Models.ParsePriority | src/agentic_issues/models.py:20-25 | `IssuePriority(v)` is the priority whose value string is exactly `v`, and fails for every other string |
| Models.Issue.FromRecord | src/agentic_issues/models.py:39-53 | the dataclass constructor yields an issue holding exactly the given fields |
| Models.Issue.Create | src/agentic_issues/models.py:55-69 | `create` yields status open, no assignee, `updated_at` unset, no comments, the given id, project, title, description and author, priority medium unless given, and the labels exactly as given (none becomes empty) |
| Models.Issue.AddComment | src/agentic_issues/models.py:71-82 | appends exactly one comment, carrying the issue's id and the given author and content, at the end; returns it; sets `updated_at`; nothing else changes |
| Models.Issue.UpdateStatus | src/agentic_issues/models.py:84-87 | any status may follow any other; only the status and `updated_at` change |
| Models.Issue.UpdatePriority | src/agentic_issues/models.py:89-92 | any priority may follow any other; only the priority and `updated_at` change |
| Models.Issue.Assign | src/agentic_issues/models.py:94-97 | overwrites any previous assignee; only the assignee and `updated_at` change |
| Models.WithLabel | src/agentic_issues/models.py:99-103 | an absent tag is appended at the end and stamps `updated_at`; a present tag leaves the whole record unchanged; no other label appears or goes, and only the labels and `updated_at` can change |
| Models.Issue.AddLabel | src/agentic_issues/models.py:99-103 | an absent label is appended and stamps `updated_at`; a present one leaves the whole issue unchanged; a duplicate-free label list stays duplicate-free |
| Models.AddLabelIdempotent | src/agentic_issues/models.py:99-103 | adding the same label twice is adding it once, time stamp included, whatever the second clock reading |
| Models.AddLabelKeepsLabelsUnique | src/agentic_issues/models.py:99-103 | from duplicate-free labels, `add_label` keeps them duplicate-free, keeps the old labels as a prefix and adds at most one |
| Time.OrdinalOrder | src/agentic_issues/cli.py:188-190 | comparing the ordinals of two time stamps is comparing the time stamps field by field, as Python does; equal ordinals mean equal time stamps |
| Time.SecondsPartOrder | src/agentic_issues/cli.py:188-190 | the ordinal of the fields down to the second orders them lexicographically |
| Time.IsoFormatLayout | src/agentic_issues/storage.py:25-26 | `isoformat` writes each field, zero-padded, at its fixed position between the separators `-`, `T`, `:` and `.` |
| Time.IsoFieldsParse | src/agentic_issues/storage.py:25-26 | each digit group `isoformat` writes parses back to its field |
| Time.IsoFormatRoundTrip | src/agentic_issues/storage.py:37-40 | `fromisoformat(t.isoformat()) == t` for every time stamp |
| Time.DigitsRoundTrip | src/agentic_issues/storage.py:25-26 | a zero-padded decimal field of a number below the width's bound parses back to that number |
| Text.Strip | src/agentic_issues/cli.py:127 | `strip` yields the infix left after removing whitespace at both ends, and it neither starts nor ends with whitespace |
| Text.StripEmpty | src/agentic_issues/ag_issues.py:234 | a stripped piece is empty exactly when the piece was all whitespace |
| Text.StripIdempotent | src/agentic_issues/cli.py:127 | stripping twice is stripping once |
| Text.Split | src/agentic_issues/cli.py:127 | `split(",")` yields one more piece than there are commas, and no piece holds a comma |
| Text.SplitJoin | src/agentic_issues/cli.py:127 | joining the pieces with the separator gives back the split string |
| Text.LowerIdempotent | src/agentic_issues/cli.py:161 | lower-casing is idempotent and leaves lower-case ASCII values alone |
| Seqs.Filter | src/agentic_issues/cli.py:162 | a comprehension with a condition keeps only elements that pass it |
| Seqs.FilterCounts | src/agentic_issues/cli.py:162 | a comprehension keeps every passing element exactly as often as it occurs, and nothing else |
| Seqs.FilterConcat | src/agentic_issues/cli.py:162 | a comprehension keeps the stored order: it distributes over concatenation |
| Seqs.FilterTwice | src/agentic_issues/cli.py:159-176 | successive comprehensions are one comprehension by all their conditions |
| Seqs.FilterKeepsLength | src/agentic_issues/storage.py:108-113 | a comprehension removes nothing exactly when every element passes |
| Seqs.Insert | src/agentic_issues/cli.py:187 | inserting into a sorted list keeps it sorted, adds exactly the element, and puts it ahead of the elements with an equal key, as it came before them |
| Seqs.SortBy | src/agentic_issues/cli.py:187 | `sort(key=...)` yields a permutation ordered by key in which elements with equal keys keep their stored order |
| Seqs.SortTwo | src/agentic_issues/cli.py:187 | two elements come out in key order, and equal keys keep their order |
| Storage.EncodeComment | src/agentic_issues/storage.py:20-26 | a comment becomes a field-named object |
| Storage.EncodeIssue | src/agentic_issues/storage.py:20-26 | an issue becomes a field-named object |
| Storage.EncodedKeys | src/agentic_issues/storage.py:20-22 | an encoded issue has exactly the field names the `Issue` constructor accepts |
| Storage.EncodedCommentKeys | src/agentic_issues/storage.py:20-22 | an encoded comment has exactly the field names the `IssueComment` constructor accepts |
| Storage.EncodeIssues | src/agentic_issues/storage.py:84 | the file content is an array with one element per issue |
| Storage.EncodedStatus | src/agentic_issues/storage.py:23-24 | the status is written as its value string and reads back as the same status |
| Storage.EncodedPriority | src/agentic_issues/storage.py:23-24 | the priority is written as its value string and reads back as the same priority |
| Storage.EncodedStamps | src/agentic_issues/storage.py:37-40 | a set `created_at` and a set or unset `updated_at` read back as written |
| Storage.EncodedComments | src/agentic_issues/storage.py:42-50 | the comments of an encoded issue read back as the same list |
| Storage.EncodedIds | src/agentic_issues/storage.py:52 | the id and the project id read back |
| Storage.EncodedTexts | src/agentic_issues/storage.py:52 | the title, description and author read back |
| Storage.EncodedAssignee | src/agentic_issues/storage.py:52 | an unset or set assignee reads back |
| Storage.EncodedLabels | src/agentic_issues/storage.py:52 | the labels read back as the same list |
| Storage.Field | src/agentic_issues/storage.py:33 | `d[key]` is the member when present and a `KeyError` otherwise |
| Storage.Iterate | src/agentic_issues/storage.py:95 | iterating a loaded value: an array yields its elements; an empty object or string yields nothing; anything else fails |
| Storage.MapAll | src/agentic_issues/storage.py:95 | a decoding comprehension succeeds exactly when every element decodes, giving the decoded elements in order |
| Storage.MapAllFirstError | src/agentic_issues/storage.py:95 | a failed decoding comprehension fails with the error of its first failing element |
| Storage.DecodeCommentList | src/agentic_issues/storage.py:43-50 | the comment loop decodes the comments in order, or stops at the first that fails with its error |
| Storage.OptTimestampRoundTrip | src/agentic_issues/storage.py:39-40 | a null `updated_at` decodes to none; a set one decodes to the same time stamp |
| Storage.CommentRoundTrip | src/agentic_issues/storage.py:45-49 | decoding an encoded comment gives back the comment |
| Storage.CommentsRoundTrip | src/agentic_issues/storage.py:42-50 | decoding the encoded comments gives back the list |
| Storage.ConvertRoundTrip | src/agentic_issues/storage.py:32-50 | the conversions of `_decode_issue` applied to an encoded issue give back its status, priority, time stamps and comments |
| Storage.Convert | src/agentic_issues/storage.py:32-50 | the conversions fail in the source's order: a missing `status`, `priority`, `created_at` or `updated_at` is a `KeyError` for that key, a status or priority naming no value a `ValueError`; on success both values are the ones read |
| Storage.Build | src/agentic_issues/storage.py:52 | `Issue(**d)` rejects an unknown key or a missing string argument with `TypeError`; on success status and priority are the converted ones and id and title the ones read |
| Storage.DecodeIssue | src/agentic_issues/storage.py:30-52 | a value that is no object is a `TypeError`; a conversion error is the result; after the conversions an unknown key or a missing string argument is a `TypeError`; a decoded issue has every required key, no unknown one, and the status, priority, id and title read from them |
| Storage.DecodeComment | src/agentic_issues/storage.py:43-48 | a value that is no object is a `TypeError`; a missing `created_at` is `KeyError("created_at")`; once both stamps convert, an unknown key or a missing `id`, `issue_id`, `author` or `content` is a `TypeError`; a decoded comment has every required key, no unknown one, and the id, issue id, author, content and creation stamp read from them |
| Storage.DecodeDocument | src/agentic_issues/storage.py:94-95 | an array decodes exactly when every element does, giving one issue per element in order; an empty object or string gives no issues; any other value is a `TypeError` |
| Storage.BuildRoundTrip | src/agentic_issues/storage.py:52 | the constructor applied to an encoded issue and its conversions gives back the issue |
| Storage.IssueRoundTrip | src/agentic_issues/storage.py:17-52 | `decode(encode(issue)) == issue` for every field, nested comments and both enumerations included |
| Storage.DocumentRoundTrip | src/agentic_issues/storage.py:84-95 | a written project file reads back as the list that was written |
| Storage.UnknownStatusIsError | src/agentic_issues/storage.py:93-98 | an unknown status string makes the whole read fail with `ValueError`; only a parse failure of the file is swallowed |
| Storage.UnknownPriorityIsError | src/agentic_issues/storage.py:33-34 | with a valid status, an unknown priority string makes the whole read fail with `ValueError` |
| Storage.IdIndex | src/agentic_issues/storage.py:76 | the index of the first issue with the id, none exactly when no issue has it |
| Storage.Upsert | src/agentic_issues/storage.py:76-80 | the first entry with the id is replaced in place, length unchanged and all other entries unchanged; otherwise the issue is appended |
| Storage.UpsertThenFind | src/agentic_issues/storage.py:76-80 | after a save the issue is the first one with its id |
| Storage.UpsertTwice | src/agentic_issues/storage.py:68-84 | saving two versions of an issue is saving the later one |
| Storage.UpsertKeepsIdsUnique | src/agentic_issues/storage.py:76-80 | saving keeps the ids of a project distinct |
| Storage.Without | src/agentic_issues/storage.py:109 | the filter of `delete_issue` removes every issue with the id and keeps every other issue as often as stored; it shortens the list exactly when the id occurs |
| Storage.WithoutKeepsOrder | src/agentic_issues/storage.py:109 | the issues that remain keep their stored order |
| Storage.SavedReadsBack | src/agentic_issues/storage.py:73-84 | after a save the project reads back as the saved list, and the saved issue is the one found under its id |
| Storage.IssueStorage.GetIssues | src/agentic_issues/storage.py:86-98 | an absent file and an unparseable file read as no issues; otherwise every element is decoded, and an error of decoding is the result |
| Storage.IssueStorage.GetIssue | src/agentic_issues/storage.py:100-103 | the first stored issue with the id, none exactly when no issue has it, and the read error when reading fails |
| Storage.IssueStorage.ProjectIds | src/agentic_issues/storage.py:121-124 | the projects with a file; a project without one has no issues |
| Storage.IssueStorage.SaveIssue | src/agentic_issues/storage.py:68-84 | the project file is rewritten with the issue upserted into the list read before, and it then reads back with the issue found under its id; a read error writes nothing |
| Storage.IssueStorage.DeleteIssue | src/agentic_issues/storage.py:105-119 | reports whether the id occurred; writes nothing when it did not; otherwise rewrites the file without every issue with the id |
| Cli.SubmitLabels | src/agentic_issues/cli.py:125-127 | without `--labels` there are none; otherwise one stripped label per comma-separated piece, empty ones kept, so there is one more label than there are commas |
| Cli.Selected | src/agentic_issues/cli.py:158-176 | the issues that pass the status, priority and label filters, each as often as stored, and no others |
| Cli.List | src/agentic_issues/cli.py:158-193 | the listed issues are a permutation of the selected ones, ordered by the chosen key, with ties in stored order |
| Cli.FiltersIgnoreCase | src/agentic_issues/cli.py:159-172 | a filter value and its lower-case form select the same issues |
| Cli.PriorityListOrder | src/agentic_issues/cli.py:179-187 | `--sort priority` lists critical issues before all others and low issues after all others |
| Cli.PriorityOrder | src/agentic_issues/cli.py:181-187 | in any list ordered by the priority table, critical comes first and low last |
| Cli.CreatedNewestFirst | src/agentic_issues/cli.py:188-190 | `--sort created` lists the newest first |
| Cli.UpdatedUnsetFirst | src/agentic_issues/cli.py:191-193 | `--sort updated` lists every never-updated issue before every updated one, and the updated ones newest first |
| Cli.UpdatedListsUnsetFirst | src/agentic_issues/cli.py:191-193 | an updated issue stored before a never-updated one is listed after it |
| Cli.ListSwapsTwo | src/agentic_issues/cli.py:178-193 | two issues whose keys are in the opposite order are listed swapped |
| Cli.ListUnfiltered | src/agentic_issues/cli.py:158-193 | without filters, `list` shows all issues sorted by the chosen key |
| Cli.SelectedAll | src/agentic_issues/cli.py:158-176 | without filters every issue is selected, in stored order |
| Cli.IntendedUpdatedUnsetLast | src/agentic_issues/cli.py:192 | with the key the comment describes, updated issues come first, newest first, and never-updated ones last |
| AgIssues.Selected | src/agentic_issues/ag_issues.py:167-185 | the issues that pass the exact status, priority and label filters, each as often as stored, and no others |
| AgIssues.PriorityRankIsValueOrder | src/agentic_issues/ag_issues.py:190 | the rank used for `--sort priority` is exactly the descending order of the priority value strings |
| AgIssues.List | src/agentic_issues/ag_issues.py:167-194 | exit code 1 exactly when a given status or priority names no value; a `TypeError` exactly when sorting by update time meets a never-updated issue among two or more; otherwise a permutation of the selected issues, ordered by key, ties in stored order |
| AgIssues.UpdatedNewestFirst | src/agentic_issues/ag_issues.py:193-194 | when `--sort updated` lists issues, any two of them have been updated, the earlier listed no earlier |
| AgIssues.ListedByUpdate | src/agentic_issues/ag_issues.py:193-194 | a listing sorted by update time is sorted, a permutation of the selected issues, and comes from a selection that does not raise |
| AgIssues.SortedNewestFirst | src/agentic_issues/ag_issues.py:194 | a permutation, sorted by update time, of issues that do not make the sort raise is newest first |
| AgIssues.PriorityListAsWritten | src/agentic_issues/ag_issues.py:188-190 | as written, `--sort priority` lists the medium issues first and the critical ones last |
| AgIssues.SortedMediumFirst | src/agentic_issues/ag_issues.py:190 | a list ordered by descending value string has medium first and critical last |
| AgIssues.PrioritySortAsWritten | src/agentic_issues/ag_issues.py:188-190 | three issues stored low, critical, medium are listed medium, low, critical |
| AgIssues.ListUnfiltered | src/agentic_issues/ag_issues.py:187-192 | without filters, sorting by priority or creation time lists all issues sorted |
| AgIssues.SelectedAll | src/agentic_issues/ag_issues.py:167-185 | without filters every issue is selected, in stored order |
| AgIssues.IntendedPriorityList | src/agentic_issues/ag_issues.py:189 | with the order the comment names, the selected issues come out critical first and low last |
| AgIssues.IntendedPrioritySort | src/agentic_issues/ag_issues.py:189 | with that order, the three issues above come out critical, medium, low |
| AgIssues.SubmitLabels | src/agentic_issues/ag_issues.py:232-234 | the stripped comma-separated pieces without the empty ones: no label is empty, and the labels are exactly the non-empty labels of the other command line, in their order and as often as they occur there |
| AgIssues.Submitted | src/agentic_issues/ag_issues.py:219-244 | the new issue is open, unassigned, never updated and without comments, described "No description provided" unless a description is given, authored by `USER` or "unknown", with the given priority (medium unless given), created at `now`, with the parsed labels |
| AgIssues.Submit | src/agentic_issues/ag_issues.py:212-250 | exit code 1 and nothing saved without a title or with a priority that names no value; otherwise the new issue is upserted into its project, or the read error is raised |
| AgIssues.CreateAndSave | src/agentic_issues/ag_issues.py:236-250 | the created issue is upserted into its project file, or the read error is raised with nothing written |
| AgIssues.Save | src/agentic_issues/ag_issues.py:294 | `save_issue` ends the command with exit code 0, or raises the read error with nothing written |
| AgIssues.Updated | src/agentic_issues/ag_issues.py:261-291 | `updated_at` moves to the clock reading exactly when a status, priority or assignee is given or a new label added, and is kept otherwise |
| AgIssues.UpdatedChangesOnlyGiven | src/agentic_issues/ag_issues.py:261-291 | `update` keeps identity, text, author, creation time and comments; sets exactly the given status, priority and assignee; keeps the labels without `--add-label`, and with it has exactly the labels `add_label` gives the old ones; keeps labels duplicate-free; stamps `updated_at` when a field is set or a new label added; with nothing given, changes nothing |
| AgIssues.Update | src/agentic_issues/ag_issues.py:253-297 | a missing issue, or a given status or priority that names no value, gives exit code 1 with nothing saved; a read error is raised; otherwise the changed issue is upserted into its project |
| AgIssues.ApplyAndSave | src/agentic_issues/ag_issues.py:261-297 | the changed issue is upserted into the project its record names |
| AgIssues.Apply | src/agentic_issues/ag_issues.py:261-291 | the mutators in their order turn a fresh issue into the updated record |
| Legacy.Loaded | src/agentic_issues/cli.py:400-410 | a missing or corrupted database reads as no issues |
| Legacy.Created | src/agentic_issues/cli.py:447-454 | the new issue is open, with the given id and title, the description or "", and both stamps the same text, which reads back as the clock reading |
| Legacy.MaxId | src/agentic_issues/cli.py:444 | the largest id: an id some issue has, and no issue has a larger one |
| Legacy.NextId | src/agentic_issues/cli.py:441-444 | 1 in an empty store, otherwise one more than the largest id, so above every id |
| Legacy.IdIndex | src/agentic_issues/cli.py:486 | the index of the first issue with the id, none exactly when no issue has it |
| Legacy.CreatedIdIsFresh | src/agentic_issues/cli.py:441-456 | the new id is held by no stored issue, the new issue is the one found under it, and distinct ids stay distinct |
| Legacy.Edited | src/agentic_issues/cli.py:493-502 | an edit keeps the id and the creation stamp, and `updated_at` reads back as the clock reading |
| Legacy.ClosedIssue | src/agentic_issues/cli.py:519-521 | closing sets status "closed" and an `updated_at` that reads back as the clock reading, and changes nothing else |
| Legacy.EditedChangesOnlyGiven | src/agentic_issues/cli.py:491-502 | an update keeps the id and creation stamp, sets each given field to its value and keeps each other one, always moves `updated_at`; closing is the update that gives only status "closed" |
| Legacy.EditKeepsIds | src/agentic_issues/cli.py:491-504 | editing an issue in place keeps every id where it was, and distinct ids distinct |
| Legacy.LegacyStore.CreateIssue | src/agentic_issues/cli.py:436-460 | appends a new open issue with the next id and writes the database, which a missing or corrupted file is replaced by |
| Legacy.LegacyStore.UpdateIssue | src/agentic_issues/cli.py:481-507 | exit code 1 and nothing written when no issue has the id; otherwise the first issue with the id is edited in place and written back |
| Legacy.LegacyStore.CloseIssue | src/agentic_issues/cli.py:509-526 | exit code 1 and nothing written when no issue has the id; otherwise the first issue with the id is closed and written back |

## Left out

- File I/O is not modelled: JSON text, indentation, key order, `mkdir` and `glob`. The disk is a map from project id to file content, and a file that does not parse is the content `Corrupt`.
- Project-id lookup is not modelled (`get_current_project_id`, `get_project_id`). The project id is a parameter.
- `uuid.uuid4`, `datetime.now` and the `USER` variable are parameters. Each command reads the clock once. Some take more than one reading: `add_comment` and the legacy `create_issue` take two, and `update` in ag_issues.py takes one in each of `update_status`, `update_priority`, `assign` and `add_label` that it calls, of which only the last is stored. The model treats these as one reading.
- Interactive `input()`, `getpass`, printing, the formatters, `argparse` and `main` are not modelled. An optional argument is an `Option`, and an empty one counts as not given.
- The `show` and `comment` branches of `issue_command` and its fallthrough are not modelled.
- `cmd_submit`, `cmd_show`, `cmd_comment` and `cmd_update` of `cli.py` are not modelled beyond the label parsing.
- The legacy `list_issues` and `show_issue` are not modelled.
- Concurrency is not modelled; the source has no locking.
- The labels of an issue are a value, so aliasing of the list passed to `create` is not modelled.
- `Text.LowerChar`: lower-cases A-Z and the Kelvin sign only. Other characters are kept, although Python maps some of them to non-ASCII text. No comparison with a status or priority value can tell the difference.
- JSON numbers are integers only. `json.load` would also produce floats, but the encoder writes none and no field of an issue is a number.
- `Legacy.DatabaseFile`: holds only the `"issues"` list. Python writes back the whole database dictionary, so any other top-level key of a hand-edited file survives a write; the model does not keep such keys.
- `Storage.DecodeCommentList`: the comment loop of `_decode_issue`, proved equal to the comprehension `MapAll`. The functions that decode an issue use `MapAll`, because a function cannot call a method.
- `Storage.DecodeIssue`: fields of the wrong JSON type are a decoding error (`Unrepresentable`), because the typed records cannot hold them. Python's untyped dataclasses would keep them. This covers a false non-null time stamp, null labels and a number as a title.
- `Time.FromIsoFormat`: accepts only the two shapes `isoformat` writes. Python also accepts other ISO 8601 forms, which nothing here writes.
- `Legacy.LegacyStore.CreateIssue`: the database entries are typed records with an integer id. The model does not cover a hand-edited file with missing keys or other id types, on which the Python raises.
- `AgIssues.Update`: checks both the status and the priority before it changes a fresh issue object. The Python changes the status first and may then exit on a bad priority. Nothing is saved in either case, so the outcome is the same.
- The sort is a value-level stable insertion sort rather than the in-place `list.sort`; order, stability and permutation are what is stated.
- Where a source comment and the code disagree, the model follows the code. The two mismatches below are modelled as written.

## Findings

| source | as written | input that shows it | evidently intended | confidence | as-written member | corrected member |
|---|---|---|---|---|---|---|
| src/agentic_issues/cli.py:191-193 | the key `(updated_at is None, ...)` with `reverse=True` lists never-updated issues first | two issues, the first updated and the second never updated: the second is listed first | the comment's "None values last": never-updated issues after the updated ones | not executed | Cli.UpdatedListsUnsetFirst | Cli.IntendedUpdatedUnsetLast |
| src/agentic_issues/ag_issues.py:188-190 | sorting by the value string with `reverse=True` lists medium, low, high, critical | three issues stored low, critical, medium are listed medium, low, critical | the comment's order critical, high, medium, low (the table of the other command line) | not executed | AgIssues.PrioritySortAsWritten | AgIssues.IntendedPriorityList |

`Cli.List` and `AgIssues.List` keep the sorts as written, because that is what both command lines do.
