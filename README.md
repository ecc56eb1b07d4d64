# TaskFlow client: task statistics and list rules, modelled in Dafny

This project models the client-side logic of the TaskFlow task manager.

The main part is the agent statistics engine, `src/utils/agentStats.js`. It takes a list of task records and produces:

- status counters and a completion rate;
- the tasks created today;
- the average completion time;
- a seven-day completion trend;
- a weighted performance score;
- the best day;
- a sorted, truncated activity feed;
- the display form of a duration;
- the number of days an agent has been active.

Beside it are the list and form rules of three pages:

- the agent's task list (`AgentTasks.js`): status filter, next-status button, replace-by-id after a status update, delete-by-id;
- the administrator's agents page (`Agents.js`): the ordered add-agent checks, the submitted mobile number and status, delete-by-id;
- the agent sign-up page (`Agentsignup.js`): the ordered guards and the full phone number.

## Modelling conventions

- Instants are integer milliseconds. The current instant `now` is a parameter wherever the source reads the clock.
- A day is a fixed window of 86 400 000 ms. Day `d` is `[d * 86400000, (d + 1) * 86400000)`, and today is the window that contains `now`. A weekly-trend date label or a best-day key is represented by its day index.
- A task's `createdAt`, `completedDate` and `updatedAt` are `Option<int>`. A task without `createdAt` lies in no day, just as an invalid `Date` compares false.
- `notes` is a string, and the empty string stands for an absent value (the source writes `notes || firstName`).
- Rates, hours and scores are unrounded `real`s.
- The pages are classes whose fields are the React state. Each handler is a method:
  - it modifies exactly the fields the handler sets;
  - the server's answer is a parameter (`Option` or `bool`);
  - the add-agent, sign-up and status-update handlers return the request they send (`None` when a check stops the add or the sign-up first);
  - the two delete handlers send no body: their request is the id they are given, which the model takes as the parameter `id`.

## Modules

| file | module | contents |
|---|---|---|
| `wrappers.dfy` | `Wrappers` | `Option`, `Outcome` |
| `lists.dfy` | `Lists` | order-preserving `Filter` and its lemmas, `Subsequence` |
| `tasks.dfy` | `Tasks` | the task record, statuses, day windows |
| `agent_stats.dfy` | `AgentStats` | `calculateStats`, `getTodayTasks` |
| `performance.dfy` | `AgentPerformance` | `calculatePerformance`: weekly trend, scores, best day |
| `activity_feed.dfy` | `ActivityFeed` | `getActivityFeed` |
| `stats_format.dfy` | `StatsFormat` | `formatCompletionTime`, `calculateDaysActive` |
| `agent_email.dfy` | `AgentEmail` | the `@agent.com` rule |
| `agent_tasks.dfy` | `AgentTasks` | the agent task list page |
| `agents.dfy` | `Agents` | the agents page |
| `agent_signup.dfy` | `AgentSignup` | the sign-up page |

## Model

| member | source | states |
|---|---|---|
| Tasks.InDayIffDayOf | src/utils/agentStats.js:27-30 | an instant lies in day `d`'s window exactly when its day index is `d` |
| AgentStats.CompletionRate | src/utils/agentStats.js:17-18 | 0 for an empty list; otherwise in [0,100], 100 when all tasks are completed, and rate × total = completed × 100 |
| AgentStats.CountStatus | src/utils/agentStats.js:12-14 | at most the list length; 0 exactly when no task has the status, and the list length exactly when every task has it |
| AgentStats.GetTodayTasks | src/utils/agentStats.js:151-161 | holds exactly the tasks whose `createdAt` lies in today's window (no other date field is used), each as many times as in the input and in the input's order |
| AgentStats.CountCompletedToday | src/utils/agentStats.js:33-39 | at most the list length; 0 exactly when no task is completed with a completion date in today's window |
| AgentStats.WithDuration | src/utils/agentStats.js:42-44 | keeps exactly the completed tasks that have both timestamps, each as many times as in the input |
| AgentStats.AvgCompletionTime | src/utils/agentStats.js:46-53 | 0 when no completed task has both timestamps |
| AgentStats.AvgIsMean | src/utils/agentStats.js:47-52 | average × number of qualifying tasks × ms per hour = total duration: it is the mean, in hours, over exactly those tasks |
| AgentStats.AvgCompletionTimeWithin | src/utils/agentStats.js:42-53 | the average lies between the shortest and the longest qualifying duration, in hours |
| AgentStats.TotalDurationWithin | src/utils/agentStats.js:48-51 | n durations in [lo, hi] sum to a total in [n·lo, n·hi] |
| AgentStats.NegativeDurationNotClamped | src/utils/agentStats.js:49-52 | a task completed two hours before its creation gives an average of −2: no clamping |
| AgentStats.CalculateStats | src/utils/agentStats.js:10-65 | total = list length; each status counter is the count of tasks with exactly that status, and the three plus the tasks of any other status make up the total; the rate is the completion rate of those counts, in [0,100]; today's count = length of today's tasks; completed-today is the count of tasks completed in today's window, at most the completed count; the average is the mean completion time; all zero on an empty list |
| AgentStats.StatusCountsPartition | src/utils/agentStats.js:11-14 | the three exact-match counters and the count of tasks with any other status add up to the list length |
| AgentStats.TodayCompletedAtMostCompleted | src/utils/agentStats.js:33-39 | tasks completed today are no more than the completed tasks |
| AgentStats.GetTodayTasksConcat | src/utils/agentStats.js:157-160 | today's tasks of a concatenation are today's tasks of each part, in order |
| AgentPerformance.WeeklyTrend | src/utils/agentStats.js:80-99 | seven entries, oldest first, for days today−6 … today; entry k counts the completed tasks completed in day today−6+k |
| AgentPerformance.SumOfDaysIsCount | src/utils/agentStats.js:87-93 | the per-day counts of n consecutive windows add up to the count of completions in their union |
| AgentPerformance.TrendPrefixSum | src/utils/agentStats.js:80-99 | the first k trend counts add up to the completions in the first k days of the week |
| AgentPerformance.TrendSumAtMostCompleted | src/utils/agentStats.js:80-103 | the seven counts add up to at most the number of completed tasks, because the windows are disjoint |
| AgentPerformance.TrendEndsWithToday | src/utils/agentStats.js:33-39 | the last trend entry is today, and its count is `calculateStats`'s completed-today count |
| AgentPerformance.TimeScore | src/utils/agentStats.js:118 | 50 when the average is not positive; otherwise in [0,100], 0 once the average is at least 48 hours, positive below 48 |
| AgentPerformance.TimeScoreAntitone | src/utils/agentStats.js:118 | a longer positive average never scores higher |
| AgentPerformance.PerformanceScore | src/utils/agentStats.js:121 | in [0,100] whenever the rate and the time score are |
| AgentPerformance.PerformanceScoreMonotone | src/utils/agentStats.js:121 | a higher completion rate never lowers the score |
| AgentPerformance.OneTaskInFortyEightHours | src/utils/agentStats.js:102-121 | one task completed after exactly 48 hours: rate 100, average 48, time score 0, score 70 |
| AgentPerformance.DailyCompletions | src/utils/agentStats.js:124-130 | the key list holds the completion days in order of first appearance, and each day's count is its number of completions |
| AgentPerformance.Record | src/utils/agentStats.js:126-129 | a task without a completion changes nothing; otherwise its completion day gains one, the keys stay as they were when the day is already a key and gain the day at the end when it is not, and every other day keeps its count |
| AgentPerformance.RecordTask | src/utils/agentStats.js:126-129 | the loop body updates keys and counts exactly as `Record` describes |
| AgentPerformance.RecordStep | src/utils/agentStats.js:126-129 | recording one more task keeps keys = days in order of first appearance, and counts = completions per day |
| AgentPerformance.DayKeysMembership | src/utils/agentStats.js:124-130 | a day is a key exactly when it has at least one completion |
| AgentPerformance.DayKeysDistinct | src/utils/agentStats.js:128 | no day is a key twice |
| AgentPerformance.FirstMaximum | src/utils/agentStats.js:132-135 | the strict-`>` reduction returns None for no keys; otherwise a key whose count is the maximum, with every earlier key's count strictly smaller |
| AgentPerformance.FirstMaximumIsBestDay | src/utils/agentStats.js:124-142 | the reduction's result is the best day of the task list |
| AgentPerformance.BestDay | src/utils/agentStats.js:124-142 | the best day has the maximum per-day completion count, and among tied days the one that first appeared in the list wins |
| AgentPerformance.BestDayNoneIff | src/utils/agentStats.js:142 | there is no best day exactly when no completed task has a completion date |
| AgentPerformance.CompletedOnIsDailyCount | src/utils/agentStats.js:87-129 | the trend's window count and the best day's per-key count agree for every day |
| AgentPerformance.BestDayDominatesTrend | src/utils/agentStats.js:80-142 | no day of the trend has more completions than the best day |
| AgentPerformance.CalculatePerformance | src/utils/agentStats.js:72-144 | the trend as above; rate and average equal those of `calculateStats`; score = 0.7·rate + 0.3·time score, in [0,100]; the best day as above |
| ActivityFeed.ToActivity | src/utils/agentStats.js:170-199 | completed-with-a-date takes priority, else in-progress, else assigned, each case stated both ways; the timestamp is that kind's date; the message is that kind's prefix followed by the notes, or the first name when there are no notes |
| ActivityFeed.MessageNamesKind | src/utils/agentStats.js:187-195 | the message prefix reads back to the entry's kind |
| ActivityFeed.NewerIsTotalPreorder | src/utils/agentStats.js:202 | the recency order is reflexive, total and transitive |
| ActivityFeed.NewerMatchesComparator | src/utils/agentStats.js:202 | for two present timestamps the order is that of the comparator `b - a` (a may come first when it is not positive); a missing timestamp comes after every present one |
| ActivityFeed.SortByRecency | src/utils/agentStats.js:202 | sorts the array in place, most recent first, as a permutation of its contents; entries with equal timestamps keep their original relative order (stable, as `Array.prototype.sort` is) |
| ActivityFeed.InsertNext | src/utils/agentStats.js:202 | one insertion step: the sorted, stable prefix grows by one entry, every entry still traced to its original position |
| ActivityFeed.SiftStep | src/utils/agentStats.js:202 | swapping an entry past a strictly older neighbour keeps the prefix sorted and stable around the hole |
| ActivityFeed.StopSifting | src/utils/agentStats.js:202 | once the neighbour is at least as recent, the prefix one longer is sorted and stable |
| ActivityFeed.GetActivityFeed | src/utils/agentStats.js:169-205 | length min(limit, number of tasks) for a non-negative limit, a negative limit counting from the end; sorted most recent first; drawn from the tasks' entries; every kept entry at least as recent as every one left out; the feed is a prefix of a stable sort of the entries, so ties keep task order |
| ActivityFeed.TieKeepsTaskOrder | src/utils/agentStats.js:202-204 | with two tasks of the same timestamp, the stable sort puts the first task's entry first |
| ActivityFeed.SortedPrefixIsMostRecent | src/utils/agentStats.js:202-204 | a prefix of a sorted list is sorted and at least as recent as the rest |
| StatsFormat.FormatCompletionTime | src/utils/agentStats.js:212-224 | "N/A" exactly for 0; minutes exactly for non-zero values under 1; hours exactly for [1,24); days and hours exactly from 24, with at least one day and a remainder in [0,24) |
| StatsFormat.FormatRoundTrip | src/utils/agentStats.js:214-222 | reading a displayed form back gives the hours it was made from |
| StatsFormat.FormatExamples | src/utils/agentStats.js:212-224 | 0.5 → 30 minutes, 30 → 1 day 6 hours, 50 → 2 days 2 hours, 0 → "N/A" |
| StatsFormat.CalculateDaysActive | src/utils/agentStats.js:248-253 | 0 without a join date; otherwise the whole days elapsed, rounded down |
| StatsFormat.DaysActiveMonotone | src/utils/agentStats.js:252 | a later instant never shows fewer days |
| AgentEmail.EndsWithIffSplit | src/pages/Agents.js:100 | `endsWith(suffix)` holds exactly when the text is something followed by the suffix |
| AgentEmail.AgentAddress | src/pages/Agentsignup.js:37 | every `local@agent.com` address passes the domain rule |
| AgentTasks.FilteredTasks | src/pages/AgentTasks.js:127-131 | "completed" keeps exactly the completed tasks and "pending" exactly the pending ones, each as many times as in the input; any other value returns the list unchanged; the result keeps the input's order |
| AgentTasks.InProgressOnlyUnfiltered | src/pages/AgentTasks.js:128-129 | an in-progress task appears under neither the "completed" nor the "pending" filter |
| AgentTasks.FilteredCountsAreStatusCounts | src/pages/AgentTasks.js:128-129 | the two filtered views are as long as the statistics engine's completed and pending counters |
| AgentTasks.FilteredViewsPartition | src/pages/AgentTasks.js:127-131 | the two views share no task; they, the in-progress tasks and the tasks of any other status add up to the whole list |
| AgentTasks.NextStatus | src/pages/AgentTasks.js:241-262 | always one of the three statuses; in-progress exactly from pending, completed exactly from in-progress, pending otherwise |
| AgentTasks.NextStatusChanges | src/pages/AgentTasks.js:241-262 | the button always asks for a different status |
| AgentTasks.NextStatusCycle | src/pages/AgentTasks.js:241-262 | three presses from a recognised status return to it |
| AgentTasks.NextStatusOfOther | src/pages/AgentTasks.js:255-261 | an unrecognised status goes to pending |
| AgentTasks.ToLower | src/pages/AgentTasks.js:120 | same length, each character lower-cased |
| AgentTasks.StatusIsLowerCase | src/pages/AgentTasks.js:120 | the three statuses are their own lower-case form |
| AgentTasks.ApplyUpdate | src/pages/AgentTasks.js:116-118 | same length and ids position by position; exactly the tasks with the returned id are replaced, and all others are unchanged |
| AgentTasks.ApplyUpdateIdempotent | src/pages/AgentTasks.js:116-118 | applying the same response twice changes nothing more |
| AgentTasks.ApplyUpdateAbsent | src/pages/AgentTasks.js:116-118 | a response whose id is not listed leaves the list unchanged |
| AgentTasks.ApplyUpdatePresent | src/pages/AgentTasks.js:116-118 | the returned task is in the new list exactly when its id was in the old one |
| AgentTasks.RemoveById | src/pages/AgentTasks.js:90 | keeps exactly the tasks with another id, each as many times as before, in their original order |
| AgentTasks.RemoveAbsent | src/pages/AgentTasks.js:90 | deleting an absent id leaves the list unchanged |
| AgentTasks.RemoveIdempotent | src/pages/AgentTasks.js:90 | deleting the same id twice removes nothing more |
| AgentTasks.RemoveAfterUpdate | src/pages/AgentTasks.js:90-118 | deleting a task discards any earlier status update of it |
| AgentTasks.TaskListPage.constructor | src/pages/AgentTasks.js:11-17 | no tasks, loading, no messages, dialog closed, filter "all" |
| AgentTasks.TaskListPage.TasksLoaded | src/pages/AgentTasks.js:45-67 | the fetched list replaces the tasks, or the load error is set; loading ends |
| AgentTasks.TaskListPage.SetFilter | src/pages/AgentTasks.js:163-183 | the filter is the pressed value, and the visible list is the filtered list |
| AgentTasks.TaskListPage.ClearMessages | src/pages/AgentTasks.js:72-75 | both messages are cleared |
| AgentTasks.TaskListPage.DeleteClick | src/pages/AgentTasks.js:80-83 | remembers the task and opens the dialog |
| AgentTasks.TaskListPage.CloseModal | src/pages/AgentTasks.js:295 | closes the dialog |
| AgentTasks.TaskListPage.HandleTaskDeletion | src/pages/AgentTasks.js:85-98 | on success the task is removed by id and the success message set; on failure the list is kept and the error set; the dialog closes either way |
| AgentTasks.TaskListPage.ConfirmDeletion | src/pages/AgentTasks.js:296 | deletes the remembered task: on success it is removed by id (nothing is removed when none is remembered) and the success message set; on failure the list and the success message are kept and the error set; the dialog closes |
| AgentTasks.TaskListPage.HandleStatusUpdate | src/pages/AgentTasks.js:100-125 | sends the given task id with the new status; on success the returned task replaces its id, the message is "Task marked as " + the lower-cased status and the error is kept; on failure the list and the success message are kept and the error set |
| AgentTasks.TaskListPage.AdvanceStatus | src/pages/AgentTasks.js:241-262 | sends the task's id with its next status; on success the returned task replaces its id, the message names the next status (unchanged by lower-casing) and the error is kept; on failure the list and the success message are kept and the error set |
| Agents.ValidateAgent | src/pages/Agents.js:100-120 | passes exactly when the e-mail ends in "@agent.com", no listed agent has it and the mobile is ten ASCII digits; a failure reports the first failing check in the order suffix, duplicate, mobile |
| Agents.SuffixCheckedFirst | src/pages/Agents.js:100-104 | a wrong domain is reported whatever else is wrong |
| Agents.MobileCheckedLast | src/pages/Agents.js:114-120 | the mobile error is reported exactly when the e-mail is acceptable and new but the mobile is not ten digits |
| Agents.AcceptedFormIsNew | src/pages/Agents.js:107-112 | an accepted form has an e-mail no listed agent uses |
| Agents.EmailTakenIffListed | src/pages/Agents.js:107 | an e-mail is taken exactly when some listed agent has it |
| Agents.TenDigitMobileExamples | src/pages/Agents.js:115-116 | ten digits pass; nine digits, an inner space, a leading "+91" and a letter fail |
| Agents.SubmittedStatus | src/pages/Agents.js:129 | never empty; the selected status when one is selected, and "Available" when none is |
| Agents.AgentRequestFor | src/pages/Agents.js:123-129 | name, e-mail and password from the form; the status as above; the mobile is the country code followed by the typed number, each recoverable |
| Agents.AcceptedMobileShape | src/pages/Agents.js:115-123 | an accepted form sends the country code followed by exactly ten digits |
| Agents.RemoveAgentById | src/pages/Agents.js:84 | keeps exactly the agents with another id, each as many times as before, in their original order |
| Agents.RemoveAgentAbsent | src/pages/Agents.js:84 | deleting an absent id leaves the list unchanged |
| Agents.RemoveKeepsOtherEmails | src/pages/Agents.js:84-107 | deleting one agent keeps every other agent's e-mail taken |
| Agents.AgentsPage.constructor | src/pages/Agents.js:34-43 | empty list and form, country code "+91", no status selected, no messages, dialog closed |
| Agents.AgentsPage.AgentsLoaded | src/pages/Agents.js:65-75 | the fetched list replaces the agents, or the fetch error is set |
| Agents.AgentsPage.AddAgent | src/pages/Agents.js:94-143 | a request is sent exactly when the checks pass, and it is the one built from the form; a failed check sets its message and keeps the form; on success the success message is set and the form reset; on server failure the add error is set; loading ends |
| Agents.AgentsPage.DeleteClick | src/pages/Agents.js:149-152 | remembers the agent and opens the dialog |
| Agents.AgentsPage.CloseModal | src/pages/Agents.js:312 | closes the dialog |
| Agents.AgentsPage.DeleteAgent | src/pages/Agents.js:77-92 | on success the agent is removed by id and the success message set; on failure the list is kept and the error set; the dialog closes either way |
| Agents.AgentsPage.ConfirmDeletion | src/pages/Agents.js:313 | deletes the remembered agent: on success it is removed by id (nothing is removed when none is remembered) and the success message set; on failure the list and the success message are kept and the error set; the dialog closes |
| AgentSignup.FullNumber | src/pages/Agentsignup.js:35 | the country code followed by the number, with no check on the number |
| AgentSignup.FullNumberInjective | src/pages/Agentsignup.js:35 | with the country code known, the number is recovered from the full number |
| AgentSignup.ValidateSignup | src/pages/Agentsignup.js:37-47 | passes exactly when the e-mail ends in "@agent.com" and the passwords match; a bad domain is reported first, even when the passwords also differ |
| AgentSignup.AgentAddressReachesPasswordCheck | src/pages/Agentsignup.js:37-47 | an `@agent.com` address is decided by the password check alone |
| AgentSignup.SignupPage.constructor | src/pages/Agentsignup.js:9-19 | an empty form with country code "+91", not loading, no messages |
| AgentSignup.SignupPage.HandleSignup | src/pages/Agentsignup.js:30-60 | a request is sent exactly when both guards pass, with the full number; a failed guard sets its message; on success the created message is set; on server failure the error is set; an earlier success message is not cleared; loading ends |

## Left out

- Rounding: every `toFixed` and `parseFloat` pair, and the `Math.round` of the minutes form, are left out. Rates, averages, scores and displayed hours are unrounded reals.
- The display strings of `formatCompletionTime` ("30 min", "6.0 hrs", "1d 6.0h") are not built. The model returns which form is chosen and its numbers.
- StatsFormat.FormatCompletionTime: `!hours` is also true for NaN and `undefined`. The model takes a real number, so neither case exists.
- Time zones: the source's days start at local midnight, with daylight-saving days of 23 or 25 hours. Its trend labels and best-day keys are UTC dates from `toISOString`. The model uses one fixed 24-hour window per day for all of these, and labels a day by its index.
- AgentPerformance.CompletedOnIsDailyCount and AgentPerformance.BestDayDominatesTrend hold in the source only when local time is UTC. The trend counts local-midnight windows (src/utils/agentStats.js:80-93), while the best-day keys are UTC dates (src/utils/agentStats.js:127). At UTC+05:30, a task completed at 02:00 local time is counted in the trend under that local day but keyed to the previous UTC date.
- `formatDate` is not modelled: it is locale formatting through `toLocaleString`.
- `Date` parsing of malformed strings is left out: timestamps are already integers or absent.
- ActivityFeed.SortByRecency: the source's comparator yields NaN when a timestamp is missing, which leaves the order up to the engine. The model ranks a missing timestamp after every present one.
- ActivityFeed.Activity: the copied fields (`taskId`, `taskNotes`, `taskFirstName`, `status`, the three dates, `type: "task"`) are carried as the whole task record.
- HTTP requests, `localStorage` token and user handling, and navigation are parameters or are left out. The server's answer is a parameter; which handlers return their request is stated under "Modelling conventions".
- The three-second timer that clears messages is modelled only by the method it would call (`ClearMessages`).
- Agents.AgentsPage.AddAgent: the list refresh after a successful add is the separate `AgentsLoaded` call. The form-field `onChange` handlers, the agent-detail click and the country-code and status selectors are plain field assignments and are not modelled.
- AgentSignup.SignupPage.HandleSignup: storing the returned token and navigating are left out.
- AgentTasks.ToLower: lower-cases ASCII letters only. JavaScript's `toLowerCase` also maps other Unicode letters.
- React renders each handler with the state of its own render. The model has one current state, so the stale `tasks` that a slow handler might overwrite is not captured.
- Rendering, the dialogs' markup, the Analytics, Tasks, UploadCSV, Login, Signup and Agentlogin pages, and the category components are not part of this model. Of their client-side checks: the agent login page (src/pages/Agentlogin.js:22) refuses an address that fails `AgentEmail.IsAgentEmail`; the user sign-up page refuses an address that passes it (src/pages/Signup.js:24) and has a separate password-match check on its submit button (src/pages/Signup.js:48-51); the user login page (src/pages/Login.js) makes no client-side check.

## Notes

- `formatCompletionTime` takes the hours form only below 24 hours (src/utils/agentStats.js:217), and the days-and-hours form from 24 on. So 30 hours shows as one day and 6 hours (`StatsFormat.FormatExamples`).
- The counter of tasks created today and `getTodayTasks` use `createdAt` only. No `date` field is consulted, although the task page displays `task.date`.
