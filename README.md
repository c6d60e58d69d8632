# Petition backend core in Dafny

This project models the deterministic core of a government petition and
grievance system. It has five parts:

- **Data model** (`models.dfy`, module `Models`):
  - departments;
  - SLA policy rows keyed by (department, urgency);
  - petitions, with their seven-valued status and four-valued urgency;
  - users with a role;
  - the audit-log action kinds.

  A nullable foreign key is an `Option`. A timestamp is a whole number of
  seconds since the epoch.
- **Auto-assignment** (`assignment.dfy`, module `Assignment`):
  - A class `PetitionRegistry` holds the petition table and the user table.
  - Its method `AssignToOfficer` gives a petition that has a department to
    an eligible officer of least workload.
  - That petition is updated in place. Nothing changes when no assignment
    is possible.
  - Workload is the number of open petitions (SUBMITTED, UNDER_REVIEW,
    ASSIGNED, IN_PROGRESS) assigned to an officer.
- **SLA sweep** (`tasks.dfy`, module `SlaTasks`):
  - `CheckSlaViolations` examines the open petitions.
  - For those with a department and an SLA row, it compares the time left
    until `created_at + hours` with zero and with a two-hour window.
  - It records VIOLATED and WARNING entries, queues one notification per
    entry and reports the counts.
  - `SendSlaNotification` composes the alert for one petition.
- **Chatbot endpoints** (`chatviews.dfy`, module `ChatViews`):
  - The chat endpoint strips the message and refuses an empty one with
    status 400. Otherwise it routes the lower-cased message through an
    ordered keyword chain to a help topic, or else to the language model.
  - The model is also proved equal to a first-match search over an explicit
    rule table.
  - The help endpoint defaults its topic to "general".
- **Chatbot logic** (`chatbot.dfy`, module `Chatbot`):
  - the help dictionary with its fallback to the general text;
  - the prompt: the system prompt, the last five turns with their role
    labels, then the new message;
  - the post-processing of the model's answer.

Two supporting modules complete the project:

- `services.dfy` (module `UrgencyService`) holds the normalisation of the
  model's urgency answer.
- `text.dfy` (module `Text`) holds the Python string operations the core
  relies on:
  - `str.strip` with Python's white-space set;
  - ASCII `lower` and `upper`;
  - substring `in`;
  - decimal formatting of ids.

`wrappers.dfy` holds the `Option` type.

The language model is a parameter. It is `None` when no API key is
configured; otherwise it is a function from prompt to either a generated
text or a raised error. E-mail sending and task queueing become returned
values: the e-mail that would be sent, and the list of queued notifications.

The model makes these choices where the code, its docstrings and its data model leave room:

- `Petition.updated_at` is `auto_now`, so assignment also sets it to the
  save time. It does not change only the officer and the status.
- `resolution_time_hours` is any integer. Nothing in the table forces it to
  be positive. Times are unbounded integers, so no deadline is out of range
  (see "## Left out").
- Assignment follows the behaviour its docstring states (backend/petitions/assignment.py:21-33):
  - the officer filter uses the department and officer-flag attributes;
  - the workload count uses the status filter.

  It does not follow the missing `models.Q` import, or the absence of those
  attributes on the user model.

## Model

| member | source | states |
|---|---|---|
| Models.UrgencyIsFourValued | backend/petitions/models.py:12-16 | Urgency has exactly four values, LOW, MEDIUM, HIGH and CRITICAL. Their stored names are distinct, and parsing a stored name gives back its urgency. |
| Models.ParseUrgency | backend/petitions/models.py:12-16 | A string parses to an urgency exactly when it is that urgency's stored name. Otherwise no urgency has that name. |
| Models.StatusIsSevenValued | backend/petitions/models.py:29-36 | Status has exactly seven values with distinct stored names. The non-pending ones are exactly RESOLVED, REJECTED and CLOSED. |
| Models.NewPetition | backend/petitions/models.py:38-54 | A new petition keeps the given id, title, description and citizen. It has status SUBMITTED, urgency LOW and is not a duplicate. Its department and officer are absent, and both timestamps are the creation time. |
| Models.FindSla | backend/petitions/models.py:18-23 | The lookup returns a row of the table with the requested (department, urgency). It returns nothing exactly when no row has that key. |
| Models.FindSlaUnique | backend/petitions/models.py:22-23 | Under the per-(department, urgency) uniqueness constraint, any row with the key is the row the lookup returns, so the lookup is a partial function. |
| Models.FindPetition | backend/petitions/tasks.py:61 | The lookup returns a petition of the table with the requested id, and nothing exactly when no petition has it. |
| Models.AuditActionNamesDistinct | backend/petitions/models.py:80-85 | Distinct audit actions are stored under distinct names. |
| Assignment.Workload | backend/petitions/assignment.py:52-61 | An officer's workload is bounded by the size of the petition table. |
| Assignment.WorkloadZeroIffIdle | backend/petitions/assignment.py:52-61 | An officer's workload is zero exactly when no open petition is assigned to them. |
| Assignment.WorkloadCountsPositions | backend/petitions/assignment.py:85-88 | The workload equals the number of petitions assigned to the officer whose status is SUBMITTED, UNDER_REVIEW, ASSIGNED or IN_PROGRESS. |
| Assignment.GetOfficerWorkload | backend/petitions/assignment.py:80-88 | A user who is not an officer has workload 0. An officer's workload is the number of their open petitions. |
| Assignment.DepartmentOfficers | backend/petitions/assignment.py:90-97 | Returns exactly the users who are officers of the department, with the officer flag set and an active account. This is the same filter that defines the assignment candidates. |
| Assignment.DepartmentOfficersCount | backend/petitions/assignment.py:90-97 | The query returns each eligible user once: the result has exactly one entry per position of the user table that passes the filter. |
| Assignment.DepartmentOfficersAppend | backend/petitions/assignment.py:90-97 | The filter distributes over concatenation, so officers come in the order of the user table. |
| Assignment.SelectOfficer | backend/petitions/assignment.py:40-64 | Finds nothing exactly when the department has no eligible officer. Otherwise it picks an eligible officer whose workload is no larger than any other eligible officer's. |
| Assignment.AssignedTo | backend/petitions/assignment.py:66-69 | The saved petition has the chosen officer, status ASSIGNED and the save time as its update time. Every other field is unchanged. |
| Assignment.AssignmentMovesWorkload | backend/petitions/assignment.py:66-69 | After an assignment the chosen officer's workload grows by one, unless the petition already counted for them. Any officer the petition counted for loses one. Every other officer's workload is unchanged. |
| Assignment.PetitionRegistry.AssignToOfficer | backend/petitions/assignment.py:19-78 | Without a department, or without an eligible officer, it returns nothing and the tables are unchanged. Otherwise it returns an eligible officer of least workload, and only that petition is replaced by its assigned form. The user table is never changed. |
| Assignment.EvenLoadScenario | backend/petitions/assignment.py:52-69 | Assigning the unassigned petition of that department picks the officer with no open work. The saved petition names that officer, is ASSIGNED and carries the save time. |
| Assignment.ScenarioWorkloads | backend/petitions/assignment.py:52-64 | In a three-officer department where two officers have one open petition each, the third has workload zero and the other two have positive workload. |
| SlaTasks.SlaStatusName | backend/petitions/tasks.py:31-44 | The status string handed to the notification selects the violation alert for VIOLATED entries and the warning alert for WARNING entries. |
| SlaTasks.PendingPetitions | backend/petitions/tasks.py:14-15 | The sweep examines exactly the petitions whose status is SUBMITTED, UNDER_REVIEW, ASSIGNED or IN_PROGRESS. |
| SlaTasks.PendingCountsOpenPositions | backend/petitions/tasks.py:14-15 | The filtered list has exactly one entry per open position of the table, so its length is the number of open petitions that `pending_petitions.count()` reports. |
| SlaTasks.PendingAppend | backend/petitions/tasks.py:14-19 | Filtering distributes over concatenation, so the open petitions are examined in table order. |
| SlaTasks.SlaFor | backend/petitions/tasks.py:20-25 | A petition without a department has no SLA. A row that is found belongs to the table and has the petition's department and urgency. |
| SlaTasks.Classify | backend/petitions/tasks.py:20-46 | A petition without an SLA row is skipped. With a row, it is recorded exactly when fewer than 7200 seconds remain before `created_at + hours`. It is VIOLATED exactly when the time left is negative, and the entry carries the petition id and the absolute number of seconds. |
| SlaTasks.Issues | backend/petitions/tasks.py:17-46 | No more entries are recorded than petitions are examined. |
| SlaTasks.IssuesAppend | backend/petitions/tasks.py:19-46 | Recording distributes over concatenation, so entries appear in the order of the petitions. |
| SlaTasks.IssuesMembership | backend/petitions/tasks.py:19-46 | An entry is recorded exactly when some examined petition classifies to it. |
| SlaTasks.FlaggedPositionsSnoc | backend/petitions/tasks.py:19-46 | Examining one more petition adds its position to the flagged set exactly when it is flagged. |
| SlaTasks.IssuesCount | backend/petitions/tasks.py:55 | The number of entries equals the number of flagged petitions. |
| SlaTasks.SweepRecordsExactlyFlaggedOpenPetitions | backend/petitions/tasks.py:14-46 | An entry is recorded exactly when an open petition of the whole table classifies to it. |
| SlaTasks.ClassifySla | backend/petitions/tasks.py:20-46 | The loop body for one petition computes that petition's classification. |
| SlaTasks.RecordIssues | backend/petitions/tasks.py:17-46 | The first loop builds the entries of the examined petitions, in order. |
| SlaTasks.QueueNotifications | backend/petitions/tasks.py:49-53 | The second loop queues exactly one notification per entry, in list order, each carrying that entry's petition id and status. |
| SlaTasks.CheckSlaViolations | backend/petitions/tasks.py:9-55 | The sweep records exactly the entries of the open petitions and queues one matching notification per entry. Its report gives the number of open petitions examined and the number of entries, and the second never exceeds the first. It returns the summary "Checked {n} petitions, found {m} SLA issues" for those counts. |
| SlaTasks.AlertFor | backend/petitions/tasks.py:65-90 | The violation text is used if and only if the status is "VIOLATED". Any other status gets the warning text. |
| SlaTasks.AlertHeadingsDiffer | backend/petitions/tasks.py:65-80 | The violation mail opens with "SLA Violation Alert" and the warning mail with "SLA Warning": the two headings are equal only for the same template. |
| SlaTasks.AlertClosingsDiffer | backend/petitions/tasks.py:76-89 | The overdue notice and the approaching-deadline notice that close the two mails are equal only for the same template. |
| SlaTasks.SendSlaNotification | backend/petitions/tasks.py:58-106 | It reports "not found" exactly when no petition has the id. Otherwise the e-mail concerns that petition, its subject is "SLA {status}: Petition #{id}", and it carries the violation text exactly for "VIOLATED". The reply is "Sent {status} notification for petition {id}". |
| SlaTasks.QueuedNotificationUsesMatchingAlert | backend/petitions/tasks.py:49-90 | Every notification the sweep queues finds its petition. It uses the violation text exactly when the entry was VIOLATED. |
| SlaTasks.RoadsScenario | backend/petitions/tasks.py:26-44 | With a four-hour CRITICAL SLA, a petition 5 h old is VIOLATED by 3600 s and one 3 h 10 min old is a WARNING with 3000 s left. One 1 h old is not recorded. |
| Chatbot.TopicOfKey | backend/ai_agent/chatbot.py:80-127 | A key names a dictionary topic exactly when it is one of the five keys. A key that finds no topic matches none of them. |
| Chatbot.GetPetitionHelp | backend/ai_agent/chatbot.py:77-129 | A known topic gets its own text, and any other topic gets the general text. |
| Chatbot.EveryTopicHasItsText | backend/ai_agent/chatbot.py:80-129 | Every topic's text is reached through its own key. |
| Chatbot.RoleLabelChoices | backend/ai_agent/chatbot.py:60 | A turn is labelled "User" exactly when its role is "user", and "Assistant" otherwise. |
| Chatbot.RecentHistory | backend/ai_agent/chatbot.py:58-59 | The prompt keeps the last five turns, or all of them when there are fewer. They are a suffix of the history, so their order is kept. |
| Chatbot.RenderHistoryAppend | backend/ai_agent/chatbot.py:59-61 | Rendering distributes over concatenation, so turns appear in the prompt in their original order. |
| Chatbot.PromptAfter | backend/ai_agent/chatbot.py:56-63 | The prompt begins with its header and ends with "User: {message}\nAssistant:". |
| Chatbot.Prompt | backend/ai_agent/chatbot.py:46-63 | The prompt begins with the system prompt followed by a blank line, and ends with "User: {message}\nAssistant:". |
| Chatbot.OldTurnsDoNotReachPromptAfter | backend/ai_agent/chatbot.py:59 | A turn older than the last five does not change the prompt. |
| Chatbot.OldTurnsDoNotReachPrompt | backend/ai_agent/chatbot.py:59 | A turn older than the last five does not change the prompt sent to the model. |
| Chatbot.AppendTurns | backend/ai_agent/chatbot.py:58-61 | The accumulation loop appends the rendering of every turn to the prefix. |
| Chatbot.BuildPrompt | backend/ai_agent/chatbot.py:56-63 | The prompt built step by step is the prompt specified by `Prompt`, so it has the header, the windowed history and the closing cue. |
| Chatbot.GetChatbotResponse | backend/ai_agent/chatbot.py:39-75 | Without a model the reply is the fixed "unavailable" text. A raised error gives the fixed error text. An empty answer gives the fixed apology, and a non-empty answer is returned stripped. |
| ChatViews.KeywordTopic | backend/ai_agent/views.py:36-45 | Every topic the chain picks is a dictionary key. Exactly "help" or "/help" picks "general". |
| ChatViews.RouteMessage | backend/ai_agent/views.py:26-48 | A message that strips to nothing is refused. A message sent to the model is the stripped message. Every help route names a dictionary topic. |
| ChatViews.HelpCommandInAnyCase | backend/ai_agent/views.py:26-37 | A message that, stripped and lower-cased, is "help" or "/help" is answered with the general help topic, whatever its case and surrounding white space. |
| ChatViews.HelpSpellingsLowerCase | backend/ai_agent/views.py:36 | "HELP", "Help" and "/HELP" lower-case to the help command. |
| ChatViews.FirstMatch | backend/ai_agent/views.py:36-48 | No topic is chosen exactly when no rule matches the message. |
| ChatViews.FirstMatchWins | backend/ai_agent/views.py:36-48 | Rules are tried in order: a matching rule preceded only by failing rules decides the topic. |
| ChatViews.MatchesAnyOfOne | backend/ai_agent/views.py:40-45 | A one-word "contains" rule matches exactly when the message contains that word. |
| ChatViews.MatchesAnyOfTwo | backend/ai_agent/views.py:42 | A two-word "contains any" rule matches exactly when the message contains either word. |
| ChatViews.MatchesAllOfTwo | backend/ai_agent/views.py:38 | A two-word "contains all" rule matches exactly when the message contains both words. |
| ChatViews.KeywordChainIsFirstMatch | backend/ai_agent/views.py:36-48 | The if/elif chain picks the same topic as the first matching rule among help/"/help", submit-and-how, status, urgency-or-priority and department. It picks none exactly when no rule matches. |
| ChatViews.RouteByRules | backend/ai_agent/views.py:26-48 | Read off the rule table, routing refuses exactly the messages that strip to nothing. It sends the stripped message to the model only when no rule of the table picks a topic. |
| ChatViews.RoutingFollowsRuleTable | backend/ai_agent/views.py:26-48 | Routing a request agrees with the rule-table reading for every message, present or absent. |
| ChatViews.ChatbotPost | backend/ai_agent/views.py:13-53 | The response is a 400 "Message is required" exactly when the message strips to nothing, and any reply echoes the timestamp. A help route answers with that topic's help text. Otherwise the answer is the model's reply to the stripped message. |
| ChatViews.ChatbotHelpGet | backend/ai_agent/views.py:61-69 | Without a topic parameter the topic is "general" with the general help. A given topic is echoed with its help. |
| UrgencyService.NormalizeUrgency | backend/ai_agent/services.py:63-66 | A reply that, stripped and upper-cased, is an urgency's name gives that urgency. Any other reply gives LOW. |
| UrgencyService.LowerLetterIsNotSpace | backend/ai_agent/services.py:63 | Lower-casing a capital letter or an underscore never gives white space, so strip leaves such a word whole. |
| UrgencyService.NormalizeLowerCasedWord | backend/ai_agent/services.py:63-66 | A lower-cased word of capitals and underscores normalises to the urgency its upper-case form names, or to LOW. |
| UrgencyService.NormalizeAcceptsLowerCaseNames | backend/ai_agent/services.py:63-66 | Every urgency is recognised when the model writes its name in lower case. |
| Text.TrimStart | backend/ai_agent/views.py:26 | Removes exactly a leading run of white space and leaves a string that does not start with white space. |
| Text.TrimEnd | backend/ai_agent/views.py:26 | Removes exactly a trailing run of white space and leaves a string that does not end with white space. |
| Text.Strip | backend/ai_agent/views.py:26 | The stripped string is empty exactly when the input is all white space. Otherwise it neither starts nor ends with white space. |
| Text.StripIsSlice | backend/ai_agent/chatbot.py:69 | The stripped string is the slice of the input that lies between a leading run and a trailing run of white space, so only white space at the ends is removed. |
| Text.StripUnpadded | backend/ai_agent/chatbot.py:69 | A non-empty string with no white space at its ends is unchanged by strip. |
| Text.StripIdempotent | backend/ai_agent/chatbot.py:69 | Stripping twice is the same as stripping once. |
| Text.LowerChar | backend/ai_agent/views.py:36 | An ASCII capital becomes the lower-case letter 32 code points above it. Every other character is kept. |
| Text.UpperChar | backend/ai_agent/services.py:63 | An ASCII lower-case letter becomes the capital 32 code points below it. Every other character is kept. |
| Text.Lower | backend/ai_agent/views.py:36 | Lower-casing keeps the length and maps every character on its own. |
| Text.Upper | backend/ai_agent/services.py:63 | Upper-casing keeps the length and maps every character on its own. |
| Text.LowerIdempotent | backend/ai_agent/views.py:36-45 | Lower-casing twice is the same as lower-casing once. |
| Text.UpperOfLower | backend/ai_agent/services.py:63 | Upper-casing undoes lower-casing on a string without lower-case letters. |
| Text.ContainsIff | backend/ai_agent/views.py:38-44 | Substring `in` holds exactly when the word occurs at some position of the message. |
| Text.DigitChar | backend/petitions/tasks.py:63 | Each digit value becomes the decimal character of that value. |
| Text.NatToString | backend/petitions/tasks.py:63 | An id is written as a non-empty string of decimal digits with no leading zero. |
| Text.NatToStringRoundTrip | backend/petitions/tasks.py:63 | Reading back the decimal form of an id gives the id. |
| Text.NatToStringInjective | backend/petitions/tasks.py:63 | Distinct ids have distinct decimal forms, so subjects and replies name one petition. |

## Left out

- Persistence: the ORM queries, `save`, and the MongoDB repositories and connection. Tables are in-memory sequences, and a save replaces one element.
- Dispatch: Celery's `.delay` and `send_mail` are I/O. The sweep returns the queued notifications, and the notification returns the e-mail it would send.
- The failure branch of `send_sla_notification` (backend/petitions/tasks.py:107-108): it catches errors raised while sending mail, which is not modelled.
- The e-mail body's free text (the department name and timestamp formatting). Only the subject, the choice of template and the petition are modelled.
- `send_status_update_notification`, the audit-log writer, the HTTP plumbing (permissions, serializers, URLs), the frontend and the scripts that need a live server are not part of this model.
- Gemini and ChromaDB: the language model is an opaque parameter. Duplicate detection and the urgency prompt are not modelled, and only the answer's normalisation is.
- UrgencyService.NormalizeUrgency: upper-cases ASCII letters only. Python turns the reply "crıtıcal" (dotless ı, U+0131) into CRITICAL, while the model gives LOW.
- UrgencyService.NormalizeUrgency: does not model the exception path of `predict_urgency` (backend/ai_agent/services.py:67-69), where a failed model call also gives LOW.
- Concurrency: two assignments or two sweeps running at once. The model is sequential.
- Floating point: each recorded entry carries its magnitude in whole seconds. The source also stores it as float hours (`hours_overdue` and `hours_remaining`, backend/petitions/tasks.py:36 and 43), but nothing reads those values, so they are not modelled.
- SlaTasks.CheckSlaViolations: takes one `now` for the whole sweep. The source calls `timezone.now()` again for each petition (backend/petitions/tasks.py:29), so a long sweep compares later petitions against a slightly later clock.
- Logging: the warnings and info lines of `assign_to_officer` (backend/petitions/assignment.py:36, 48 and 71-74) and the error print of `get_chatbot_response` (backend/ai_agent/chatbot.py:74) are output only and are not modelled.
- SlaTasks.CheckSlaViolations: does not model datetime range overflow. In the source, `created_at + timedelta(hours=...)` (backend/petitions/tasks.py:26) raises `OverflowError` when the deadline falls outside years 1 to 9999. That happens from roughly 7·10^7 hours upward or −1.8·10^7 hours downward. Only `SLA.DoesNotExist` is caught (line 45), so one such row aborts the whole sweep and queues no notification. The model computes a deadline for every integer number of hours.
- SlaTasks.CheckSlaViolations: requires the SLA uniqueness constraint. A table violating it makes the source's `get` raise an uncaught error, which is not modelled.
- SlaTasks.SlaFor: states the found row's key, and that no department means no row. It does not restate the lookup's "none exactly when no row matches", which `Models.FindSla` states.
- Assignment.SelectOfficer: the source's ordering leaves ties unspecified. The contract says only that the chosen officer has least workload. The loop keeps the first such officer.
- Chatbot.GetPetitionHelp: the five help texts are not proved pairwise distinct. Only the choice of topic is stated.
- Text.Lower: maps ASCII capitals only. Python's `lower()` also maps non-ASCII capitals and changes the length for 'İ'. Routing is unaffected: of the non-ASCII characters, only U+0130 and U+212A lower-case to ASCII letters, and neither completes a keyword.
- Text.Upper: maps ASCII lower-case letters only. Python's `upper()` also maps non-ASCII letters and changes the length for 'ß' and the ligatures.
- Text.LowerChar: maps A-Z only, where Python also maps non-ASCII capitals.
- Text.UpperChar: maps a-z only, where Python also maps non-ASCII letters such as 'ı' to 'I'.
- Request values of other types than strings, a history entry without "role" or "content" (a KeyError in the source), and a model response object that is itself missing are not modelled.
