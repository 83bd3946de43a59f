# imap2rtm, modelled in Dafny

imap2rtm turns flagged mail into "Remember The Milk" tasks. For every configured IMAP account it:

1. takes the last week's messages in INBOX and reads their flags;
2. keeps the messages carrying one of the Thunderbird labels *important* (`$label1`), *work* (`$label2`) or *todo* (`$label4`);
3. downloads those messages;
4. mails one task per message to the RTM inbox. The title is the cleaned subject plus RTM smart-add tags. The note is the plain-text body;
5. relabels the selected messages: *personal* (`$label3`) is added to former important/todo messages, and the three triggering labels are removed.

This project models that core and proves what it promises. The modules, one per file, are:

- `Outcomes` holds `Option`, `Result` and the error kinds.
- `Registry` holds the label table, the trigger flags and the flags removed after processing.
- `Text` models Python's `str.strip()` and `str.replace(pat, "")` on strings.
- `Subject` models `prepare_subject`.
- `Body` models `get_message_body` over already-decoded MIME parts. Tag stripping of HTML, `removeTags`, is a parameter that may fail.
- `Selection` models `filter_messages_to_process`. The id → flags dict is an ordered sequence of entries.
- `Mailbox` contains:
  - the IMAP server as a class: its flag table, a log of every add/remove request, and a log of fetch requests;
  - the relabelling loop `mark_as_processed`;
  - what that loop does to the flag table.
- `Orchestrator` contains `process_messages`, `main` and the task inbox. The task inbox is a class whose send attempts may be refused.

## Model

| member | source | states |
|---|---|---|
| Registry.FlagFor | imap2rtm.py:26-33 | The label table: each label's token. Its properties are stated by `Registry.FlagForInjective` and `Registry.RemovedTokens` |
| Registry.FlagsToRemove | imap2rtm.py:71-75 | The flags removed after processing (the label table filtered by the names important, work, todo) are exactly the trigger list, in the same order |
| Registry.RemovedTokens | imap2rtm.py:71-75 | Filtering the label table keeps a token exactly when its label is important, work or todo |
| Registry.FlagForInjective | imap2rtm.py:26-33 | The six labels have pairwise different tokens |
| Registry.PassiveLabelsDoNotTrigger | imap2rtm.py:26-40 | A flag set made only of star, personal and later never triggers processing |
| Text.IsSpace | imap2rtm.py:137 | The whitespace set `str.strip()` removes (Python's `str.isspace`). What strip does with it is stated by `Text.StripBounds` |
| Text.LStrip | imap2rtm.py:137 | Left strip returns a suffix of its input that is empty or starts with a non-space |
| Text.LStripDropsSpace | imap2rtm.py:137 | Everything left strip drops is whitespace |
| Text.RStrip | imap2rtm.py:137 | Right strip returns a prefix that is empty or ends with a non-space |
| Text.RStripDropsSpace | imap2rtm.py:137 | Everything right strip drops is whitespace |
| Text.Strip | imap2rtm.py:137 | The stripped string is no longer than the input and has no whitespace at either end |
| Text.StripBounds | imap2rtm.py:137 | The stripped string is the slice `s[i..j]` where everything before `i` and from `j` on is whitespace and the slice's ends are not |
| Text.StripSlice | imap2rtm.py:137 | The stripped string is the slice of the input that starts right after the leading whitespace |
| Text.StripDropsTrailingSpace | imap2rtm.py:137 | Everything strip drops after that slice is whitespace |
| Text.StripUnpadded | imap2rtm.py:137 | A string without whitespace at either end is unchanged by strip |
| Text.StripIdempotent | imap2rtm.py:137 | Stripping twice is stripping once |
| Text.RemoveAll | imap2rtm.py:137 | Removing every occurrence of a pattern never lengthens the string |
| Text.RemoveAllIdentity | imap2rtm.py:137 | A string in which the pattern never occurs is unchanged by the removal |
| Text.RemoveAllMissingChar | imap2rtm.py:137 | A string lacking one of the pattern's characters is unchanged |
| Text.RemoveAllAppend | imap2rtm.py:137 | A tail without the pattern's last character passes through the removal untouched |
| Text.RemoveFirstOccurrence | imap2rtm.py:137 | The first occurrence of the pattern is cut out, everything before it is kept, and the removal carries on after it |
| Text.InnerMarkerRemoved | imap2rtm.py:136-137 | A "Fwd:" in the middle is cut out: "aFwd:b" becomes "ab" |
| Text.RemovalCanExposePattern | imap2rtm.py:136-137 | One left-to-right pass can leave a new "Fwd:" behind ("FwFwd:d:" becomes "Fwd:"), so the cleaned subject can still contain a marker |
| Text.RemoveLeading | imap2rtm.py:137 | A leading pattern followed by text free of one of its characters is removed exactly |
| Subject.PrepareSubject | imap2rtm.py:131-154 | `prepare_subject`: stated by `Subject.SubjectLayout`, `Subject.AnnotationsSpec`, `Subject.TitleFrame` and `Subject.ReapplyAppendsTagsAgain` |
| Subject.CleanSubject | imap2rtm.py:136-137 | The marker removal and strip: stated by `Subject.CleanSubjectTrimmed`, `Subject.CleanStage`, `Subject.CleanKeepsMailWord` and `Subject.CleanForwardedReply` |
| Subject.Decorate | imap2rtm.py:139-154 | The prefix and the tags: stated by `Subject.DecorateLayout` and `Subject.DecorateAfterWord` |
| Subject.CleanSubjectTrimmed | imap2rtm.py:136-137 | The cleaned subject is no longer than the subject and has no surrounding whitespace |
| Subject.DecorateLayout | imap2rtm.py:139-154 | Decorating puts the heading ("prefix " or nothing) before the subject and the annotations after it |
| Subject.TitleFrame | imap2rtm.py:131-154 | Every title starts with "prefix " when the account sets a prefix and always ends with " #@mail " |
| Subject.SubjectLayout | imap2rtm.py:131-154 | The title is the heading ("prefix " or nothing), then the cleaned subject, then the annotations |
| Subject.AnnotationsSpec | imap2rtm.py:143-152 | The annotations start with " !1 " iff the message is important. " #@needsreply " follows iff it is important or todo. They always end with " #@mail " and contain no colon |
| Subject.AnnotationsEndWithMailTag | imap2rtm.py:151-152 | The annotations, whatever the flags, end with " #@mail " |
| Subject.StripKeepsWord | imap2rtm.py:137 | Stripping text that ends in a word without surrounding whitespace, then a space, keeps that word at the end |
| Subject.CleanKeepsMailWord | imap2rtm.py:136-137 | Cleaning a title whose colon-free tail ends in " #@mail " keeps "#@mail" at the end: neither marker removal nor strip can reach it |
| Subject.DecorateAfterWord | imap2rtm.py:139-154 | When the cleaned subject ends in a word, the title ends in that word followed by the annotations |
| Subject.ReapplyAppendsTagsAgain | imap2rtm.py:131-154 | Not idempotent: titling a title keeps the old "#@mail" and appends a fresh set of annotations after it |
| Subject.CleanStage | imap2rtm.py:136-137 | One cleaning stage turns a leading marker, a space and a text t (free of one of the marker's characters, no surrounding whitespace) into t |
| Subject.CleanForwardedReply | imap2rtm.py:136-137 | "Fwd: Re: t" is cleaned to t (for t without surrounding whitespace and without 'F' or 'R') |
| Subject.BuyMilkExample | imap2rtm.py:131-154 | "Fwd: Re: Buy milk", important, prefix "[Home]" gives "[Home] Buy milk !1  #@needsreply  #@mail " |
| Body.PartText | imap2rtm.py:111-123 | For a part with a charset: always a body on success. It fails exactly when the part is HTML and tag stripping fails |
| Body.ScanParts | imap2rtm.py:99-123 | No body is returned only when no part declares a charset |
| Body.MessageBody | imap2rtm.py:97-128 | A single-part message fails exactly when it has no charset. "No body" only happens for multipart messages |
| Body.SinglePartTrimmed | imap2rtm.py:124-128 | A single-part body is the payload with exactly its leading and trailing whitespace removed |
| Body.FirstCharsetPartDecides | imap2rtm.py:99-123 | The first part that declares a charset decides the body, whatever its content type |
| Body.NoBodyIffNoCharset | imap2rtm.py:99-123 | A multipart message has no body iff none of its parts declares a charset |
| Body.LaterPartsIgnored | imap2rtm.py:99-123 | Parts after the first one with a charset are never examined |
| Body.SkippedPartExample | imap2rtm.py:106-109 | A part without a charset before a plain-text part is skipped, not turned into "" |
| Body.StripTwoSpaces | imap2rtm.py:128 | Stripping a text padded with two spaces on each side gives back the text |
| Body.HelloExample | imap2rtm.py:124-128 | The single-part payload "  hello  " gives the body "hello" |
| Selection.FlagsOf | imap2rtm.py:68 | The dict lookup returns the flags of a row with that id |
| Selection.Selected | imap2rtm.py:79-85 | Every selected id is a key of the table |
| Selection.FilterMessagesToProcess | imap2rtm.py:79-85 | The loop returns exactly the selection |
| Selection.SelectedPositions | imap2rtm.py:79-85 | The selection is the ids of the triggering rows, taken in table order (strictly increasing positions), and only those rows |
| Selection.SelectedMembership | imap2rtm.py:79-85 | An id is selected iff some row with that id shares a flag with important/work/todo |
| Selection.SelectedDistinct | imap2rtm.py:79-85 | A table holding each id once yields a selection without duplicates |
| Selection.NothingTriggersNothingSelected | imap2rtm.py:79-85 | A table without triggering rows, in particular the empty one, selects nothing |
| Selection.PassiveMessageExcluded | imap2rtm.py:36-40 | A message flagged only star/personal/later is not selected |
| Mailbox.Apply | imap2rtm.py:70-76 | One add/remove request never changes which messages the server holds |
| Mailbox.ApplyAll | imap2rtm.py:67-76 | No sequence of requests changes which messages the server holds |
| Mailbox.ApplyAllAppend | imap2rtm.py:67-76 | Applying two request logs one after the other is applying their concatenation |
| Mailbox.Snapshot | imap2rtm.py:182 | The flags dict holds each id once, only requested ids the server holds, with their current flags, and all of them |
| Mailbox.Fetched | imap2rtm.py:88-94 | The download holds each id once, only requested ids the server holds, with their stored message |
| Mailbox.ImapServer.constructor | imap2rtm.py:198-201 | A freshly opened server has the given flags and empty request logs |
| Mailbox.ImapServer.AddFlags | imap2rtm.py:70 | Adding flags logs the request and applies it to the flag table |
| Mailbox.ImapServer.RemoveFlags | imap2rtm.py:76 | Removing flags logs the request and applies it to the flag table |
| Mailbox.ImapServer.Search | imap2rtm.py:181 | The search returns the week's messages |
| Mailbox.ImapServer.GetFlags | imap2rtm.py:182 | `get_flags` returns the snapshot of the current flag table |
| Mailbox.ImapServer.Fetch | imap2rtm.py:88-94 | The fetch is logged with exactly the requested ids and returns the stored messages |
| Mailbox.StepCalls | imap2rtm.py:68-76 | The requests for one id: stated by `Mailbox.StepCallsShape`, `Mailbox.StepCallsCount` and `Mailbox.StepCallsApply` |
| Mailbox.MarkCalls | imap2rtm.py:67-76 | The whole request sequence of `mark_as_processed`: stated by `Mailbox.MarkCallsShape`, `Mailbox.MarkCallsCount` and `Mailbox.MarkedState` |
| Mailbox.MarkOne | imap2rtm.py:68-76 | For one id: personal is added if important or todo, then the three triggers are removed |
| Mailbox.MarkAsProcessed | imap2rtm.py:61-76 | The server log grows by exactly the relabelling requests. Processed messages get their relabelled flags. All other messages keep theirs, and no message appears or disappears |
| Mailbox.MarkCallsSnoc | imap2rtm.py:67-76 | Processing one more id appends that id's requests to the log |
| Mailbox.StepCallsApply | imap2rtm.py:69-76 | One id's requests act as an add of personal (when earned) followed by the removal of the triggers |
| Mailbox.StepCallsShape | imap2rtm.py:69-76 | One id's requests are one or two: the add of personal first when earned, then the removal of the three triggers |
| Mailbox.MarkCallsShape | imap2rtm.py:67-76 | Every request names a processed id. Every removal is of exactly the three triggers. Every add is of personal and is immediately followed by the removal for the same id |
| Mailbox.CountCalls | imap2rtm.py:67-76 | A count of requests never exceeds the log length |
| Mailbox.CountCallsAppend | imap2rtm.py:67-76 | Counts add up over concatenated logs |
| Mailbox.StepCallsCount | imap2rtm.py:69-76 | One id's requests hold exactly one removal for it, one add iff it earns personal, and nothing for other ids |
| Mailbox.MarkCallsCount | imap2rtm.py:67-76 | For distinct ids: each processed id gets exactly one removal, one add iff its snapshot flags held important or todo, and any other id gets no request |
| Mailbox.ProcessedFlags | imap2rtm.py:69-76 | Relabelled flags hold no trigger. They hold personal iff it was earned or already present, and they keep every non-trigger flag |
| Mailbox.ProcessedFlagsIdempotent | imap2rtm.py:67-76 | Relabelling twice with the same snapshot flags equals relabelling once (a repeated id does no harm) |
| Mailbox.StepEffect | imap2rtm.py:69-76 | One id's requests relabel that message and leave every other message alone |
| Mailbox.MarkedState | imap2rtm.py:61-76 | After the loop, processed messages hold their relabelled flags and every other message is unchanged |
| Mailbox.NotSelectedAgain | imap2rtm.py:61-85 | After relabelling, a fresh snapshot of any ids selects none of the processed messages |
| Mailbox.TodoAndWorkOnly | imap2rtm.py:69-76 | A todo-only message gains personal and loses the triggers. A work-only message only loses the triggers |
| Orchestrator.MakeTask | imap2rtm.py:184-187 | A message without a subject fails before its body is read. Otherwise the task exists iff the body can be read, and the body's error is reported. The title ends with " #@mail " and begins with the account heading |
| Orchestrator.Tasks | imap2rtm.py:184-187 | One task result per downloaded message |
| Orchestrator.TasksAt | imap2rtm.py:184-187 | The i-th task result is the task built from the i-th downloaded message and its snapshot flags |
| Orchestrator.StopFrom | imap2rtm.py:184-187 | The pass stops at the first task that cannot be built or whose send is refused. Every earlier task was built and sent |
| Orchestrator.Values | imap2rtm.py:184-187 | The delivered tasks are the built ones, in order |
| Orchestrator.TaskInbox.constructor | imap2rtm.py:157-174 | A fresh inbox has nothing delivered and no attempts |
| Orchestrator.TaskInbox.Send | imap2rtm.py:157-174 | A send attempt is counted. It succeeds iff the environment does not refuse it, and on success the task is delivered |
| Orchestrator.SendTasks | imap2rtm.py:184-187 | Tasks are sent in order up to the first failure. Exactly those are delivered, with the attempts counted. The outcome names the failure |
| Orchestrator.ProcessMessages | imap2rtm.py:177-189 | Only the selected ids are downloaded, and one task per downloaded message is sent until the first failure. Relabelling happens only when every send went through. A failed pass leaves the server's flags and request log untouched |
| Orchestrator.RunAccount | imap2rtm.py:196-206 | One account: an unreachable server is reported as a connection failure; it is never read and nothing is sent. A reachable one is processed: exactly its selection is downloaded, its tasks are delivered up to the first failure, and the report gives that pass's outcome. A failed pass changes no label; a successful one sends exactly the relabelling requests |
| Orchestrator.RunAccounts | imap2rtm.py:192-206 | Every account is processed in order, with one report each, as `RunAccount` states it. Each account's pass starts from the inbox state the previous accounts left, so the inbox ends up holding every account's delivered tasks in order. A failed or unreachable account never stops later accounts |
| Orchestrator.QuietAfterPass | imap2rtm.py:177-189 | After a successful pass no message of the week's search carries a trigger |
| Orchestrator.SecondPassSelectsNothing | imap2rtm.py:177-189 | Running the pass again right after a successful one selects nothing |

## Left out

- Configuration loading, the `mail-` section selection and the SMTP account details (imap2rtm.py:13-18) are file I/O done at module load. An account is modelled as a name, a server and an optional subject prefix. A configuration without a `subject_prefix` key (a `KeyError`) is not modelled.
- The one-week date window (imap2rtm.py:21-23) depends on the wall clock. The search result is a fixed input sequence of the server (`recent`).
- SSL context construction (imap2rtm.py:43-54) wraps the `ssl` library and is not modelled.
- IMAP connection and login (imap2rtm.py:198-201) are reduced to one `reachable` bit. Failures of `select_folder`, `search`, `get_flags`, `fetch`, `add_flags` or `remove_flags` are not modelled. These operations always succeed in the model, and closing the session is not modelled either.
- SMTP sending (`send_task_to_rtm`, imap2rtm.py:157-174) is an abstract send that may fail. Which attempts fail is fixed up front by the inbox's `refused` set. The MIME layout of the outgoing mail is not modelled.
- MIME parsing and transfer decoding (`email.message_from_bytes`, `get_payload(decode=True)`, `str(bytes, charset)`) are not modelled. Parts arrive already decoded as text with their declared charset, and decoding errors for a bad charset are not modelled.
- `remove_html_tags` (imap2rtm.py:57-58) is an uninterpreted parameter that may return `None`, meaning the call raised. The XML parsing itself is not modelled. The intended failure is markup that is not well-formed. However, imap2rtm.py:11 imports only the package `xml`, which does not load `xml.etree`, so line 58 likely raises `AttributeError` on every input (not executed). A parameter that fails on every input is one of the functions the model allows, so this case is covered too.
- The traceback printing in `main` (imap2rtm.py:203-206) is diagnostic output. The model keeps only a report per account.
- `Body.ScanParts` skips a multipart part without a charset (`continue`, imap2rtm.py:106-109), as the code does. A message none of whose parts has a charset has no body (`None`).
- Orchestrator.ProcessMessages builds the whole task list before the sending loop, whereas the source builds each task inside the loop. Building a task has no side effect, so the sends made and the failure point are the same in both. The order of work differs only internally.
- Orchestrator.RunAccounts does not model a failure of `get_ssl_context` (imap2rtm.py:196), for example a `KeyError` for an account section without `skip_ssl_verification`. That call sits before the `try` at imap2rtm.py:197, so in the source such a failure ends `main` and no later account is attempted. In the model every account is attempted.
- Mailbox.ImapServer.Fetch does not model the implicit `\Seen` flag that an IMAP server sets on each message fetched with `RFC822` from a folder selected read-write (imap2rtm.py:91, imap2rtm.py:180). The model's flag table changes only through `AddFlags`/`RemoveFlags`. So "flags untouched" in `Orchestrator.ProcessMessages` and `Orchestrator.RunAccounts` means that no label request was sent; the real server may still have set `\Seen` on the downloaded messages.
- Orchestrator.RunAccounts requires the accounts' servers to be distinct objects, and each `ImapServer` holds its own mailbox. Two configuration sections that name the same mailbox therefore cannot be expressed. The source accepts them, and there the second pass would see the first pass's relabelling. Also, `Mailbox.Snapshot` and `Mailbox.Fetched` return entries in request order, while the dicts IMAPClient returns follow the server's response order. The two are normally the same, because SEARCH returns ascending UIDs.
- Mailbox.MarkAsProcessed relabels every selected id, even one that the download did not return (for example because it was expunged in between). This is the source's behaviour, and it is kept as is.
