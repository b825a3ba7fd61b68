# hubctl: the protocols of the command line client

A Dafny model of the parts of `hubctl` and its two scripts that keep a protocol, and proofs of what
they keep.

* **The credential protocol.** `Profiles` is the stored profile and its crash-safe write. `Renewal` is
  one process against the profile file and the server's token families: every read, write and answer
  may fail and the process may die anywhere. `RenewalTrace` proves, over every finite sequence of
  invocations, where a retired refresh token can come back from, and `RenewalClocks` under which clocks
  nothing at all is written before it does; `RenewalDisk` is what an invocation takes from the profile file
  and every command leaves in it. `SignIn` is the sign-in of a person against any installation whose owed
  steps decrease; `SignInSteps` proves what every sign-in keeps and exactly which finish, `SignInWords` what
  is sent of what was typed and why a sign-in stops.
  `Client` is the loop that waits out a rate limit.
* **The showcase as deferred execution.** `Showcase` is `hubctl workspace demo` as it writes, queues and
  marks; `Replay` is the queue written by its speakers; `Placeholders`, `Json` and `Voices` are the texts
  between them. `Templates` and `Program` are the content that drives a run; `Deferred`, `DeferredNames`
  and `DeferredMarks` prove when a run with `--voices` and its replay make the writes and marks of a run
  without, and `DeferredCases` holds the smallest runs that differ; `Marks` proves what re-runs keep,
  `MadeObjects` what is sent of an object and which identifier and version it has, and `Reports` when a run
  and its replay report nothing.
* **Commands and arguments.** `FlagAliases` and `FormerNames` rewrite former flag names, and `FormerValues`
  is what each former spelling means; `Doors` and
  `Lookup` merge the generated commands and find the one a line names (`Words` is splitting and joining);
  `Paths` builds a call's path.
* **One key of a whole document.** `Versioned` is reading a document whole and saving it with the version
  read, in any interleaving; `Settings` is the installation's level; `SettingsRuns` joins the two, for
  settings and for plans; `SettingValues` is what a typed word is saved as, and what the level ends with.
* **Recovery.** `Recovery` is a batched, resumable replay of records; `Erasures` is what is sent of the
  cases read and what the table says of them.
* **The tenant export.** `TenantExport` is the reader and the definition of a conformant archive;
  `ExportProblems` is what each problem it reports says; `ExportWriter` is a writer of the format, and what
  the printed sum means.

Where the source changes things step by step the model is a class or a loop whose contract equates the
result with a function; the lemmas are about those functions.

What turned out not to hold is stated as it is, with the input that shows it and, where there is a
condition a caller can check, the condition under which it holds:

* A write can fall between a lost exchange and the retired token coming back, and write it again, where
  the clock dips: `AClockGoingBackRewritesTheToken` is such a run, and no run has one exactly where, the
  first clock left out, none reads earlier than one before it and one after it (`NoWriteFallsInIffNoDip`).
* `media attach --media M` with nothing in front drops the value (`MediaAttachLosesItsValue`), and of two
  values moved to one place the first is dropped (`TheSecondTakesThePlace`); nothing is lost exactly when
  no two are moved to one position and every position is reached (`NothingLostIffApartAndReached`).
* A settings level read at version 0, or from a server that answers no version, is saved without a
  precondition, and nothing is then compared with: changes can be lost exactly there
  (`NoneIsLostIffVersioned`). The shipped server starts at version 1
  (`db/migrations/0184_instance_level_version.sql:21-23`), so with it none is.
* `Retry-After` above 9223372036 seconds overflows the wait (`WaitsAsToldIffItFits`).
* A sign-in that owes anything after the terms, or a code after the first step, cannot finish here whoever
  signs in, and one offered only the recovery codes cannot without `--recovery` (`FinishesIffAnswerable`);
  a change of the password owed after the terms is such a sign-in (`AChangeOwedAfterTheTerms`).
* `hubctl mfa confirm` holds the pair it is answered without looking whether it is whole
  (`ConfirmCanHoldHalfAPair`).
* A write left to a voice is answered an empty body at once, and is sent by the replay as it was queued. So
  a run with `--voices` and its replay make the writes of a run without exactly where three things are so
  (`DeferredRefinesDirect`): no written line names a write left to a voice that answers an identifier
  (`ALateNameIsLeftOut`); no line belongs to a write left to a voice whose own answer would have decided
  otherwise about it, being no body at all where any would do, or an identifier where one is asked for
  (`AnUnansweredOwnerIsDecidedOtherwise`); and no line left to a voice has a method hubctl does not know,
  which it posts, or a body on a read, which it drops (`AnotherMethodIsSentOtherwise`).
* A goal, portfolio or dashboard that a voice makes is marked at the version its creation answered, one
  that hubctl makes at the version it has behind every write of the queue (`DeferredMarksMatch`).
* A mark the server kept though its answer was lost is not held (`AnUnheardMarkIsNotHeld`); a finished run
  holds the whole mark table exactly where no key's last mark ended so (`HeldIsTheMarkTableIffHeard`).
* A conformant archive stays accepted with an entity counted that has no file, and the printed sum is then
  off by it (`AnExtraCountIsAccepted`).

## Model

| member | source | states |
|---|---|---|
| Profiles.AfterSteps | cmd/hubctl/Profile.go:208-262 | at every crash point of the save the profile's path loads as the whole old profile or the whole new one, and no other file changes |
| Profiles.Disk.SaveProfile | cmd/hubctl/Profile.go:208-262 | the save in place: done, an error at any step that leaves the files as they were, or a crash at any step that leaves what `AfterSteps` says |
| Profiles.LoadAfterSave | cmd/hubctl/Profile.go:174-262 | loading what was saved gives the profile back, a session without an access token as none, and the same credential |
| Renewal.Cli.SaveProfile | cmd/hubctl/Profile.go:213-262 | a write of the profile as the protocol sees it: in effect, failed, or the process dying with it or without |
| Renewal.Cli.ForgetSession | cmd/hubctl/Login.go:398-409 | dropped in memory always, and on disk where the profile could be read and written |
| Renewal.Cli.Present | core/application/service/identity/Session.go:428-540 | a retired token ends the family, a good one is rotated, whether or not the answer arrives; a request refused before its token is looked up changes nothing |
| Renewal.Cli.ExchangeRefresh | cmd/hubctl/Login.go:363-396 | the next pair only once it is written into the profile as it is on disk by then |
| Renewal.Cli.RenewSession | cmd/hubctl/Login.go:348-361 | renewed when due, forgotten on any failure, and never fatal |
| Renewal.Cli.HoldSession | cmd/hubctl/Login.go:314-335 | the pair replaces whatever credential was there |
| Renewal.Cli.Run | cmd/hubctl/Command.go:172-206 | load and resolve, renew once, then dispatch |
| Renewal.Cli.Dispatch | cmd/hubctl/Session.go:38-85 | what each command does to the profile and the families: a call, a sign-in, an owed enrolment, a token stored or removed, a revocation refused, carried out or unheard, a sync |
| Renewal.Cli.SyncAll | cmd/hubctl/Sync.go:403-430 | a sync saves the profile it loaded, with its device, clock and cursor, as often as it goes, and ends at the first save that fails |
| RenewalTrace.EveryRunKeeps | cmd/hubctl/Login.go:337-409 | the invariant of every reachable state, over every finite sequence of invocations |
| RenewalTrace.ReuseFollowsALostWrite | cmd/hubctl/Login.go:337-409 | a retired token is presented only after an exchange that reached the server and after which no write put anything else in the profile |
| RenewalTrace.NoReuseIffReplaced | cmd/hubctl/Login.go:337-347 | no retired token is ever presented exactly where each token rotated is replaced in the profile before anything is presented again, and then no family ends by reuse |
| RenewalTrace.NeverBothCredentials | cmd/hubctl/Login.go:309-314 | the stored profile never holds both a token and a session |
| RenewalTrace.CarriedIsStored | cmd/hubctl/Login.go:384-396 | without a token in the environment a command carries what is on disk, so a renewed pair is stored before it is used |
| RenewalClocks.ReuseFollowsNoWrite | cmd/hubctl/Login.go:337-409 | where the clocks do not dip, a retired token is presented only with no profile write at all since its exchange |
| RenewalClocks.NoWriteFallsInIffNoDip | cmd/hubctl/Login.go:348-409 | for every sequence of clocks: in no run with them does a profile write fall between a lost exchange and its token coming back, exactly where, the first clock left out, none reads earlier than one before it and one after it |
| RenewalClocks.DyingInTheWindowEndsTheFamily | cmd/hubctl/Login.go:384-392 | the window is real: a crash between exchange and write ends the family at the next renewal |
| RenewalClocks.AClockGoingBackRewritesTheToken | cmd/hubctl/Sync.go:403-410 | four invocations, the third at a clock set back: the save of the loaded profile writes the retired token again, and it is presented after that |
| RenewalDisk.ResolvedReads | cmd/hubctl/Profile.go:272-312 | the flag's address before the environment's before the file's, the environment's workspace and token before the file's, a token of the environment without a session, and everything else the file's |
| RenewalDisk.CarriedIsTheFirst | cmd/hubctl/Profile.go:109-121 | a call carries the environment's token, else the stored session's, else the stored token |
| RenewalDisk.ForgottenForgets | cmd/hubctl/Login.go:398-409 | forgetting takes the session, and nothing else, out of memory and, where the file could be read and written, out of the file |
| RenewalDisk.RenewalLeaves | cmd/hubctl/Login.go:348-396 | a session not due is left; one granted and stored is the pair answered, in memory and on disk; otherwise it is forgotten in both, and a process that dies leaves the old pair or the next |
| RenewalDisk.OverIsOver | core/application/service/identity/Session.go:428-540 | whatever is invoked, no family that is over lives or is rotated again |
| RenewalDisk.RevocationLeaves | cmd/hubctl/Session.go:61-85 | the families named are over and no others; heard, and of this shell's session, the file holds the profile without it |
| RenewalDisk.NothingRevokedIsCarried | cmd/hubctl/Session.go:33-37 | the invocation after such a revocation renews nothing and carries a token or nothing |
| RenewalDisk.SignInLeaves | cmd/hubctl/Login.go:314-335 | a finished sign-in leaves its address, its workspace and the pair answered, of a family of its own, and nothing that was there |
| RenewalDisk.StoringLeaves | cmd/hubctl/Auth.go:100-115 | a verified token is stored with its address alone, an unverified one not at all; an owed enrolment leaves an address and a workspace, a log-out no file |
| RenewalDisk.SyncLeaves | cmd/hubctl/Sync.go:403-430 | the profile loaded, with the device, clock and cursor of the last save in effect |
| SignIn.Cli.Login | cmd/hubctl/Login.go:90-115 | the password, then the steps owed: the requests made, the lines read, and the profile written, as the run says |
| SignIn.Cli.SecondStep | cmd/hubctl/Login.go:125-169 | a code where one is offered, otherwise the owed step |
| SignIn.Cli.OwedStep | cmd/hubctl/Login.go:209-219 | the terms before the change of the password, anything else an enrolment that saves an address only |
| SignIn.Cli.ChangeOwed | cmd/hubctl/Login.go:175-205 | two equal typings or nothing sent, then the next step or the pair |
| SignIn.Cli.FurtherStep | cmd/hubctl/Login.go:222-228 | the step still owed, or unreadable |
| SignIn.Cli.TermsOwed | cmd/hubctl/Login.go:233-271 | named terms, agreed to, and then a pair, whatever the status |
| SignIn.Cli.MfaConfirm | cmd/hubctl/Mfa.go:100-134 | the confirmation, and the sign-in it completes |
| SignInSteps.EverySignInIsOrderly | cmd/hubctl/Login.go:102-271 | every sign-in ends within the steps owed and two; each request answers the last challenge with the step it offers; a session is held only on a complete pair |
| SignInSteps.PresentedAtMostOnce | cmd/hubctl/Login.go:138-192 | each challenge's pending credential is presented at most once |
| SignInSteps.FinishesIffAnswerable | cmd/hubctl/Login.go:102-271 | whoever signs in and whatever they type, it finishes exactly where the owed steps are a code first if anywhere, of the kind asked for, then changes of the password, then at most the named terms last, and every question on the way is answered |
| SignInSteps.NothingFollowsTheTerms | cmd/hubctl/Login.go:233-271 | terms with a step behind them are the end of a sign-in, whatever the person says and types |
| SignInSteps.AChangeOwedAfterTheTerms | cmd/hubctl/Login.go:209-271 | nobody finishes a sign-in that owes the terms and then a change of the password |
| SignInSteps.ConfirmHoldsWhatItIsGiven | cmd/hubctl/Mfa.go:116-133 | what a confirmation holds is the pair as it came, or a complete one the steps after it ended in |
| SignInSteps.ConfirmCanHoldHalfAPair | cmd/hubctl/Mfa.go:128-133 | a confirmation can hold a session that reads back as none |
| SignInWords.EveryWordSentWasGiven | cmd/hubctl/Login.go:90-271 | each request sends the environment's word or the lines behind those of the requests before it, trimmed, a new password typed twice; a sign-in that stops has the reason it names, and any other has read no line too many |
| SignInWords.EveryWordConfirmedWasGiven | cmd/hubctl/Mfa.go:100-134 | the same of a confirmation and the sign-in it completes |
| SignInWords.OnlyYesIsYes | cmd/hubctl/Login.go:247-259 | the twelve ways to agree, and no other |
| SignInWords.HoldsBothHalves | cmd/hubctl/Login.go:422-432 | a sign-in holds an access and a refresh token or nothing |
| SignInWords.HoldsWhatItEndsWith | cmd/hubctl/Login.go:277-335 | the profile left is the pair, the address and the workspace, or these two alone, and nothing else |
| Client.Transport.Send | cmd/hubctl/Client.go:549-575 | four attempts at most, each but the last refused by the limit and waited for; executed at most once where the limiter leaves the server untouched |
| Client.RunsAtMostOnce | cmd/hubctl/Client.go:39-45 | attempts refused before they run leave only the last that can have run |
| Client.WaitsAsToldIffItFits | cmd/hubctl/Client.go:577-593 | the wait is exactly what the header says up to 9223372036 seconds and less than it beyond |
| Client.ALongWaitIsNoWait | cmd/hubctl/Client.go:588-592 | the first number that does not fit makes the wait negative |
| Client.WithoutANumberASecond | cmd/hubctl/Client.go:577-593 | no header, what is no number, nought and a negative number are a wait of one second |
| Placeholders.PlaceholderInFront | scripts/seed-demo.py:290-299 | a placeholder hubctl writes is read back as its own number and replaced as a whole |
| Placeholders.SubstitutedHoldsNone | scripts/seed-demo.py:293-299 | with identifiers of the server's shape a substituted text holds no placeholder |
| Placeholders.SubstitutionCanMakeAPlaceholder | scripts/seed-demo.py:299 | with others it can |
| Replay.ResolvesIffMade | scripts/seed-demo.py:293-311 | a body resolves exactly when every voice it names has made something |
| Replay.ResolvedHoldsNone | scripts/seed-demo.py:293-311 | a resolved body names no voice in any value, and its member names are as they were |
| Replay.Seed.WriteVoices | scripts/seed-demo.py:315-347 | the replay of the whole queue: calls, failures, marks and identifiers |
| Replay.NeverSentIsTheClosure | scripts/seed-demo.py:318-341 | the voices never sent are exactly those nobody signed in to say and those that lead, through any number of placeholders, to one that gave nothing |
| Replay.CallsAreInOrderAndOwn | scripts/seed-demo.py:318-341 | each voice is sent at most once, in queue order, as its own speaker and by its own method, a MARK only reading, naming no voice any more |
| Replay.GivesItsId | scripts/seed-demo.py:338-340 | a voice gives the `id` it was answered, or the `item_id` where it has none |
| Reports.FailsExactly | scripts/seed-demo.py:315-347 | the replay reports, in order and once, exactly the voices it could not send and those refused or whose mark was |
| Showcase.Demo.MakeObject | cmd/hubctl/Demo.go:225-260 | held, queued, or made and marked or left pending, with what the run then holds |
| Showcase.Demo.Take | cmd/hubctl/Demo.go:239-259 | what becomes of each answer to a creation |
| Showcase.Workspace.Send | cmd/hubctl/Demo.go:358-371 | PUT and PATCH as they are, a GET without a body, and anything else a POST |
| Showcase.Demo.Write | cmd/hubctl/Demo.go:331-342 | queued as it is where it waits for a voice, otherwise sent as `send` does; what it answers its caller |
| Showcase.Demo.Say | cmd/hubctl/Demo.go:301-307 | left to its speaker, or written; what it answers its caller |
| Showcase.Demo.Later | cmd/hubctl/Demo.go:310-316 | left behind the voices before it, or written; what it answers its caller |
| Showcase.Demo.PostMark | cmd/hubctl/Demo.go:318-328 | held once its mark is answered |
| Showcase.Demo.FlushOne | cmd/hubctl/Demo.go:267-283 | one pending mark: read, dropped and marked, or left to the voices |
| Showcase.Demo.Flush | cmd/hubctl/Demo.go:267-283 | every pending mark, in order |
| MadeObjects.CompactPicksTheFilled | cmd/hubctl/Demo.go:386-399 | what is left of a body is exactly its members that are neither null nor empty text, in order and unchanged |
| MadeObjects.AskedForWithTheFilled | cmd/hubctl/Demo.go:225-242 | an object not held is asked for once, now or by its voice, with the filled members of its body |
| MadeObjects.GoesByItsId | cmd/hubctl/Demo.go:243-259 | it is given, held and marked by its `id`, or its `item_id` where it has none |
| MadeObjects.ReadWhereItStands | cmd/hubctl/Demo.go:262-272 | the path a goal, a portfolio and a dashboard are read at, and the MARK voice that reads it |
| MadeObjects.StandsAsTold | cmd/hubctl/Demo.go:251-257 | an object stands at the version last told of it |
| Reports.ReportedIffNotWell | cmd/hubctl/Demo.go:214-342 | an act is reported, once and by name, exactly where it was not held, left to a voice, or accepted, named and marked |
| Reports.CompleteIffAllWentWell | cmd/hubctl/Demo.go:74-99 | the run reports nothing exactly where every act and every pending mark went well |
| Marks.MadeAtMostOncePerMark | cmd/hubctl/Demo.go:225-283 | over any number of runs, cut short or not, a key's objects number at most one plus the times one was left unmarked |
| Marks.HeldIsTheMarkTableIffHeard | cmd/hubctl/Demo.go:265-328 | after the flush `held` is the server's mark table but for the keys whose last mark was kept unheard, and all of it exactly where there is none |
| Marks.AnUnheardMarkIsNotHeld | cmd/hubctl/Demo.go:318-328 | a mark kept though its answer was lost is not held |
| Marks.VersionedMarksAreCurrent | cmd/hubctl/Demo.go:251-283 | a goal, portfolio or dashboard is marked at the version it has at the end of the run |
| Templates.BodyReads | scripts/seed-demo.py:293-311 | a body written with placeholders and resolved later is the body written with the final identifiers |
| Templates.CompactReads | cmd/hubctl/Demo.go:236-239 | leaving out empty members first and resolving after gives the final body without them |
| Program.EveryStateIsSound | cmd/hubctl/Demo.go:225-342 | in every reachable state each queued voice names only voices before it, and nothing sent carries a placeholder |
| Program.FlushIsSound | cmd/hubctl/Demo.go:265-288 | the flush keeps both |
| DeferredNames.DeferredRefinesDirect | cmd/hubctl/Demo.go:225-371 | each line is skipped, held or written alike in both runs, and the writes at once followed by the replay are the writes of a run without `--voices`, as their speakers, with one identifier per line throughout, exactly where no line names a late identifier, belongs to a queued write that would have decided otherwise about it, or is queued with a method or body hubctl would not send |
| DeferredNames.LackingIsOther | cmd/hubctl/Demo.go:301-316 | a write that lacks a name is never the write with it, its empty members left out or not |
| DeferredNames.KnownMethods | cmd/hubctl/Demo.go:358-371 | the methods sent as they are: POST, PUT, PATCH and a GET without a body; any other is posted |
| Deferred.BothRunsWrite | scripts/seed-demo.py:315-347 | what each run and the replay write, with the identifiers the content has of each line |
| Deferred.SameLines | cmd/hubctl/Demo.go:225-342 | a line is skipped, held or written with voices as it is without, where neither it nor a line before it belongs to a queued write that would have decided otherwise about it |
| Deferred.SameLinesIffMatched | cmd/hubctl/Demo.go:301-342 | every line fares alike exactly where there is no such line |
| Deferred.EachLineOnce | cmd/hubctl/Demo.go:225-342 | each run writes each of its lines exactly once, and both the same lines where none is such a line |
| Deferred.AfterWhatItNames | cmd/hubctl/Demo.go:285-316 | each line is written after every object it refers to |
| Deferred.QueuedReady | scripts/seed-demo.py:318-341 | at a queued line's turn its names are all made and it becomes the line's write with its final identifiers |
| DeferredMarks.DirectMarks | cmd/hubctl/Demo.go:251-283 | a run without voices marks every new object under its identifier, a versioned one at the version it ends with, any other at its creation's |
| DeferredMarks.AtOnceMarks | cmd/hubctl/Demo.go:229-257 | with voices hubctl itself marks exactly the objects made at once that do not wait for their version, at their creation's |
| DeferredMarks.DeferredMarksMatch | scripts/seed-demo.py:328-346 | after the replay every new object is marked under its final identifier, except another person's time record; a versioned one made at once at the version read behind every write of the queue, and one made by a voice at its creation's |
| DeferredCases.AnUnansweredOwnerIsDecidedOtherwise | cmd/hubctl/Demo.go:299-342 | Ann's write answers no body: without voices the line that belongs to it is skipped, with them it is written and before hers |
| DeferredCases.ALateNameIsLeftOut | cmd/hubctl/Demo.go:299-342 | Ann's write answers an identifier, which the line that names it lacks with voices |
| DeferredCases.AnotherMethodIsSentOtherwise | cmd/hubctl/Demo.go:358-371 | a DELETE is posted by hubctl and deletes when its speaker replays it |
| FlagAliases.WithFormerNames | cmd/hubctl/FlagAliases.go:73-133 | the rewritten arguments, and the aliases met in order |
| FlagAliases.ReadArgs | cmd/hubctl/FlagAliases.go:80-117 | one pass over the arguments takes them apart as their pieces |
| FlagAliases.ReadNext | cmd/hubctl/FlagAliases.go:83-117 | one turn: kept, rewritten, its value taken from the next argument or not, or moved |
| FlagAliases.Arrange | cmd/hubctl/FlagAliases.go:118-132 | the moved values put in among the leading arguments, and nothing else touched |
| FlagAliases.Place | cmd/hubctl/FlagAliases.go:118-132 | each moved value put in at its position, or at the end |
| FlagAliases.NoFormerName | cmd/hubctl/FlagAliases.go:75-133 | arguments with no former name come back unchanged |
| FormerNames.PiecesCoverArgs | cmd/hubctl/FlagAliases.go:80-117 | every argument is in exactly one piece, and kept exactly where it spells no former name |
| FormerNames.ArgumentsAreConserved | cmd/hubctl/FlagAliases.go:75-133 | every argument neither former nor consumed comes back once and in order, and beside it only rewritten flags and moved values |
| FormerNames.MovedValueEndsInPlace | cmd/hubctl/FlagAliases.go:118-132 | a moved value ends at its position whenever that is at most the leading arguments plus the moved positions below it |
| FormerNames.NothingLostIffApartAndReached | cmd/hubctl/FlagAliases.go:101-132 | no value moved is lost exactly when no two are moved to one position and every position lies below the leading arguments plus the number of values moved |
| FormerNames.MediaAttachLosesItsValue | cmd/hubctl/FlagAliases.go:50 | the shipped row that can lose one |
| FormerNames.TheSecondTakesThePlace | cmd/hubctl/FlagAliases.go:101-106 | of two values moved to one position the first is dropped |
| FormerNames.RewritingTwiceIsOnce | cmd/hubctl/FlagAliases.go:75-170 | rewriting again meets a former name exactly when a placed value reads as one, and otherwise changes nothing |
| FormerNames.ShippedNamesAreNew | cmd/hubctl/FlagAliases.go:40-71 | no new name of the shipped table is a former one of the same command |
| FormerValues.RenamedReadsAsToday | cmd/hubctl/FlagAliases.go:83-113 | `--former=value` in any arguments is `--now=value`, with the row's word for the value where it has one |
| FormerValues.RenamedAloneReadsAsToday | cmd/hubctl/FlagAliases.go:83-115 | `--former` is `--now` where none of the row's words follows |
| FormerValues.RenamedWithAWordReadsAsToday | cmd/hubctl/FlagAliases.go:89-97 | `--former word` is `--now=` what the word stands for |
| FormerValues.RenamedAmongTodays | cmd/hubctl/FlagAliases.go:75-133 | among arguments of today that is all that changes |
| FormerValues.BareSwitchReadsAsToday | cmd/hubctl/FlagAliases.go:107-111 | a bare switch that stands for a value is today's flag with that value |
| FormerValues.SwitchReadsAsToday | cmd/hubctl/FlagAliases.go:107-111 | given true it is the same, and given anything else nothing |
| FormerValues.SwitchTakesItsWord | cmd/hubctl/FlagAliases.go:89-97 | with one of the row's words behind it it is given that word |
| FormerValues.MovedIsTheValueGiven | cmd/hubctl/FlagAliases.go:101-106 | a flag that became an argument moves the value given with it or behind it |
| Doors.WithDoors | cmd/hubctl/Door.go:40-59 | every group ends with its own commands and the doors it takes, and every new group stands where its first door came |
| Lookup.PresentIffNotShadowed | cmd/hubctl/Door.go:46-57 | a generated command is in its group exactly where the group runs no command itself, no hand-written one has its name and no door before it |
| Lookup.MergingKeeps | cmd/hubctl/Door.go:40-59 | groups and verbs occur once, hand-written commands stay in front and in order, every door has its group |
| Words.JoinsToItsWordsOnly | cmd/hubctl/Door.go:414-416 | as many arguments joined are a name exactly when they are its words |
| Lookup.VerbOf | cmd/hubctl/Door.go:410-424 | the command with the most words the arguments begin with, and the exact remainder |
| Lookup.TheLongestIsOne | cmd/hubctl/Door.go:410-424 | there is no second command it could have been |
| Lookup.Dispatch | cmd/hubctl/Command.go:208-236 | the group, then the group itself or its command, or what is missing |
| Lookup.ADoorIsReachedByItsWords | cmd/hubctl/Command.go:208-236 | a door nothing shadows is reached by its group and its words with whatever follows |
| Paths.BuildPath | cmd/hubctl/Door.go:139-147 | replacing one at a time is substituting all at once, and matching the path gives the arguments back |
| Paths.ReplacingFillsOne | cmd/hubctl/Door.go:146 | the first occurrence replaced is the placeholder, however its neighbours read |
| Paths.UnescapeEscaped | cmd/hubctl/Door.go:146 | percent-encoding loses nothing |
| Paths.EscapesOneByOne | cmd/hubctl/Door.go:146 | a byte the escaping leaves alone is itself, and any other a per cent sign and two upper-case digits |
| Paths.PathGivesTheArgumentsBack | cmd/hubctl/Door.go:139-147 | as many segments as the template, and exactly the arguments, whatever bytes they are |
| Versioned.EveryInterleavingIsSerial | cmd/hubctl/Client.go:193-204 | in every interleaving of clients that quote the version they read, the document is the first one with the accepted changes applied in commit order |
| Settings.Document.AreaOf | cmd/hubctl/AdminInstance.go:202-229 | the area, made where the read answered none |
| Settings.Document.Change | cmd/hubctl/AdminInstance.go:169-185 | one command's change to the level in place, or nothing to send |
| Settings.ShownKeyReadsBack | cmd/hubctl/AdminInstance.go:122-156 | a key as it is shown reads as that key |
| Settings.SendingBackChangesNothing | cmd/hubctl/AdminInstance.go:162-164 | a level sent back as it was read decides what was decided |
| Settings.OneCommandOneChange | cmd/hubctl/AdminInstance.go:127-200 | saving the level read with one command's change is that command's effect and nothing else |
| SettingValues.FlagWords | cmd/hubctl/AdminInstance.go:246-249 | `true` is true and `false` is false |
| SettingValues.CountWords | cmd/hubctl/AdminInstance.go:242-245 | a numeral that fits is its number, and any other word is sent as it is |
| SettingValues.CountOfDigits | cmd/hubctl/AdminInstance.go:242-245 | a number as it is written out is that number |
| SettingValues.ChoiceWords | cmd/hubctl/AdminInstance.go:250-256 | words listed with commas are those choices in order, whatever blanks stand around them |
| SettingValues.OtherWords | cmd/hubctl/AdminInstance.go:237-259 | under any other kind, or where a flag is neither word, the word is sent as it is |
| SettingValues.SwitchesRead | cmd/hubctl/AdminInstance.go:456-467 | a switch is set on and off by their words in any letters and by nothing else, and cleared is off |
| SettingValues.CooldownReads | cmd/hubctl/AdminInstance.go:481-498 | the cooldown is a number that fits, and cleared is none |
| SettingValues.ReservedNamesRead | cmd/hubctl/AdminInstance.go:531-546 | the reserved names are those listed that are not blank; none is no command, and cleared empties the list |
| SettingValues.NamesInTurn | cmd/hubctl/AdminInstance.go:534-540 | names in several arguments are those of each, in order |
| SettingValues.ReservedArgumentsRead | cmd/hubctl/AdminInstance.go:531-546 | the names may be typed as any number of arguments |
| SettingsRuns.NoChangeIsLost | cmd/hubctl/AdminInstance.go:187-198 | from version 1 on, the accepted commands' effects in commit order, in every interleaving |
| SettingsRuns.UnnamedIsUnchanged | cmd/hubctl/AdminInstance.go:187-198 | what no accepted command named is as it was |
| SettingValues.TheLastAcceptedDecides | cmd/hubctl/AdminInstance.go:162-198 | in every interleaving from version 1 on, a key is decided as the last accepted command for it says |
| SettingValues.AFlagSetIsDecided | cmd/hubctl/AdminInstance.go:162-198 | so a flag last set to `true` or `false` is that |
| SettingValues.TheLastStands | cmd/hubctl/AdminInstance.go:456-546 | the last accepted switch, cooldown and reserved names are what stands |
| SettingsRuns.AVersionBelowOneLosesAChange | cmd/hubctl/Schedule.go:97-103 | below version 1 two clients can lose a change |
| SettingsRuns.NoneIsLostIffVersioned | core/application/service/admin/Instance.go:198-236 | no change is ever lost exactly from version 1 on |
| SettingsRuns.PlanSet | cmd/hubctl/AdminPlan.go:45-63 | the body of a plan's save: the name, what is left out and one key changed |
| SettingsRuns.NoPlanChangeIsLost | cmd/hubctl/AdminPlan.go:27-100 | a plan's changes are never lost, at any version |
| Recovery.Operation.Replay | cmd/hubctl/HoldReplace.go:197-208 | batches of at most 1000, none empty, that taken together are the records; all answers in order, or the break and how much is in effect |
| Recovery.Operation.SendBatch | cmd/hubctl/HoldReplace.go:197-207 | one batch further, or broken off |
| Recovery.ResumedIsUninterrupted | cmd/hubctl/HoldReplace.go:117-120 | however often and wherever runs were cut short, a whole run after them leaves what one uninterrupted run would |
| Recovery.AnswersSay | cmd/hubctl/HoldReplace.go:197-208 | each record is answered under its identifier, as placed exactly where it is the first of it, and what is held of it is that first one's |
| Erasures.ErasureRecordsOf | cmd/hubctl/ErasureReapply.go:140-157 | the records of the resolved cases and the others, in order; one case that does not convert and there is nothing to send |
| Erasures.RecordSays | cmd/hubctl/ErasureReapply.go:160-206 | a case converts exactly where its identifiers read as such, and each field of its record is the case's own |
| Erasures.EachCaseOnce | cmd/hubctl/ErasureReapply.go:140-157 | every case read is in exactly one of the two |
| Erasures.OnlyResolvedAreSent | cmd/hubctl/ErasureReapply.go:140-157 | no unresolved case is ever sent |
| Erasures.ReappliedTable | cmd/hubctl/ErasureReapply.go:208-224 | a row to each answer, then one to each case set aside |
| Erasures.OneRowPerCase | cmd/hubctl/ErasureReapply.go:102-118 | with one answer to each case sent, in whatever order, exactly one row to each case read |
| TenantExport.Verify | scripts/verify-tenant-export.py:28-104 | 0 exactly for a conformant archive; otherwise 1 with the problems in order |
| TenantExport.CheckEntries | scripts/verify-tenant-export.py:59-86 | the problems of every listed member, in order |
| TenantExport.CheckEntry | scripts/verify-tenant-export.py:59-86 | the problems of one member: missing, digest, size, lines, count, records |
| TenantExport.ReadRecords | scripts/verify-tenant-export.py:107-131 | the problems of every line, or a line the reader fails on |
| TenantExport.EntriesConform | scripts/verify-tenant-export.py:53-86 | no problem exactly where every listed member is right |
| ExportProblems.ReportsExactlyWhatIsSo | scripts/verify-tenant-export.py:28-131 | a problem is reported exactly where it is so, of the member and the line, counted from 1, that it names |
| ExportProblems.CountSays | scripts/verify-tenant-export.py:83-85 | what is counted of an entity is its count's number; null, and no count, are nought |
| ExportProblems.EntitySays | scripts/verify-tenant-export.py:83-84 | a member's entity is its name behind the last slash without its ending |
| ExportWriter.LinesReadBack | scripts/verify-tenant-export.py:72-74 | the lines written are the lines read, with or without a final newline |
| ExportWriter.AnyEndReadsBack | scripts/verify-tenant-export.py:72-74 | a line feed, a carriage return, and both together each end one line |
| ExportWriter.WrittenIsConformant | scripts/verify-tenant-export.py:28-104 | what a writer of the format writes is conformant |
| ExportWriter.SumIsTotalAndExtra | scripts/verify-tenant-export.py:100-103 | with distinct entities the printed sum is the records in the files plus what is counted without a file |
| ExportWriter.AnExtraCountIsAccepted | scripts/verify-tenant-export.py:82-85 | an archive stays accepted with an entity counted that has no file |

## Left out

- Renewal: tokens are a family and a serial, and the server's half of the exchange is what `core/application/service/identity/Session.go:428-540` and `docs/architecture/identity.md:565` say of it; hashing and expiry of tokens are not modelled.
- Renewal: invocations are one after another and reach one installation; two processes renewing at once, and `HUBTASK_URL` pointing a stored session at another installation, are not modelled.
- SignIn: refusals, lost answers and unreadable bodies are outcomes; the parsing of flags and addresses before the password is not modelled.
- SignInSteps.PresentedAtMostOnce: asks that no two challenges carry the same pending credential, which is the installation's to keep.
- Client: the header is the list of its values; two spellings of its name in one answer, and the cap on an answer's size, are not modelled.
- Placeholders.SubstitutedHoldsNone: asks that identifiers carry a hyphen and no brace, as the server's do, because otherwise a placeholder can be made (`SubstitutionCanMakeAPlaceholder`).
- Placeholders: decimal digits other than 0 to 9, which `\d` also matches, are not modelled.
- Showcase: the counts printed at the end, the people and groups read by name, and `writeAgain`, which sends without looking for placeholders, are not modelled; of what a write answers only its identifier is kept, of an object whether it answered one, and of a refusal what it was of, not its words.
- Replay: a MARK's read that answers no identifier, and an error other than a refusal, which end the section, are not modelled.
- DeferredNames.DeferredRefinesDirect: compares the writes; the mark posts and the reads of the flush are not among them, and `DeferredMarks` is about the marks.
- Deferred: asks that no line of the content has the method MARK, which the replay reads as its own; the content uses it nowhere.
- DeferredMarks.DeferredMarksMatch: asks that a MARK's read answers the object at its path; a read that names another would mark that one.
- FormerValues: what stands in front of a former name ends in no flag that waits for its value, and no new name of the table is a former one, as in every shipped row (`ShippedNamesAreNew`).
- FlagAliases: parsing by the `flag` package and the note printed for a former name are not modelled.
- Doors.WithDoors: asks for unique group names, as the tree has; usage texts are not modelled.
- Lookup.VerbOf: asks for names written with single spaces, as every name is.
- Paths: positional arguments are taken as bound; the query and the body of a generated command are not modelled, nor the checking of identifiers.
- Paths.BuildPath: a template's placeholders are spelled with no brace or slash in them and stand once each, at most one to a segment, as in the generated table.
- Settings: the file that enforces a level, and the values the server refuses, are one outcome of a save; ASCII letters only are folded where a switch is read.
- SettingsRuns: a plan is a level whose known keys hold no localisation; creating, removing and moving between plans are not modelled.
- Recovery: reading the source of the records, the conversion of a hold and the step-up before each batch are not modelled; the operation is taken to place a record whose identifier it does not hold and to leave one it holds.
- Erasures: dates are not part of a case here.
- TenantExport: digests and reading one line as JSON are parameters; a manifest whose fields are of other JSON types than the format gives them, and paths that leave the archive, are not modelled.
- HTTP, terminal prompts, tables, the message catalogue and the endpoint commands that make a single call.
- Configuration and conformance commands, whose interesting behaviour is the server's.
