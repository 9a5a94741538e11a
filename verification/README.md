# Verified models of allocation, provider storage and the shared shell

This project models four pieces of the repository and proves what they promise.

**Correlated allocation.** `Json`, `JsonText` and `Canonical` hold JSON values,
the recursive key sort, the compact printer with the escapes of section 7 of RFC
8259, and a reader that inverts it. SHA-256 is any function from text to text:
nothing is assumed of it, so a digest binds "the same request, or here are two
different texts with one hash". `Prepare` fills in and binds a request, `Exchange`
reads one answer of the daemon, and `Allocation` is the protocol around them: the
manager's memory, its journal on disk, the network and the daemon. A restart keeps
only the journal; messages are lost, delayed and handed to any waiting call; saves
fail before or after they reach the disk; and the daemon makes a new sandbox for
every POST it receives. `AllocationSafety` is the invariant and `AllocationRuns`
the promises over every run.

**Provider store.** `FileNames` says which keys share a file, `ProviderFiles` what
a directory means, `ProviderStore` is the store itself with its directory as
classes, `ProviderRuns` compares memory with a fresh load over every run of
failing upserts, removals, crashes and restarts, `ProviderWriters` interleaves
concurrent upserts and removals one filesystem call at a time, and `ProviderList` is the two
listings.

**Shared shell.** `Html` is the escaper together with the data, tag, attribute and
double-quoted value states of section 13.2.5 of the HTML Standard, `HtmlInput` the
newline normalisation in front of it; `TopBar` the bar built with it;
`CookieDomain`, `Theme` and `ThemeScript` the two halves of the theme contract;
`CookieJar` the browser between them, after sections 5.2 to 5.4 of RFC 6265 with
the rules for name prefixes and, in sending and in storing, for SameSite;
`ThemeRuns`, `ThemeLoop` and `ThemeExact` the loop that runs through all of it, over
any number of tabs, and `ThemeShadow` what a second cookie of the name does to it.

**Session cookie.** `Session` issues and reads the dashboard's cookie, and
`SessionRuns` follows it through the jar.

`Text` holds the string functions of Rust's standard library they are written
with, with their laws, and `Maps` the lookup in a map.

## What turned out to be false

- The comment at `ui/ui.rs:170-173` says the last cookie of the name wins. The
  loop returns at the first recognised one. The code is what is modelled;
  `Theme.FirstWinsVersusLastWins` says exactly when the two agree, and
  `Theme.CommentAndLoopDiffer` gives every pair of themes on which they do not. Nor
  does a browser send the more specific cookie first: of two with one path it sends
  the older, so that a host-only cookie older than the fleet's shadows every later
  choice (`ThemeShadow.HostOnlyShadowsEveryChoice`).
- A namespace may contain underscores, so two valid keys may share a file.
  `FileNames.NamespacesShareFilesIffExtends` says exactly which namespaces are
  affected, and `ProviderRuns.BothSurviveIffOwnFiles` what it costs. The theorems
  about runs ask of a key only that no other key of the run has its file, which
  underscore-free namespaces always grant.
- A removal whose unlink failed cannot be completed by retrying it:
  `ProviderRuns.RemovalSticksExactly` says when a removal does hold, and
  `ProviderRuns.FailedRemovalComesBack` that a provider in use comes back as it was.
- Copying and publishing the map is not one step. An upsert may vanish from memory,
  and a removed provider come back to it, until the next load:
  `ProviderWriters.PublishedStaysExactly` and `ProviderWriters.RemovedStaysGoneExactly`
  say exactly when, `ProviderWriters.RaceDropsAKey` and
  `ProviderWriters.RaceUndoesARemoval` how.
- Not every text comes back from a browser as it was written: a carriage return
  is read as a newline, and a null character in an attribute value as U+FFFD.
  `TopBar.BarIsGivenBackExactly` and `ThemeRuns.ScriptReadsServer` say exactly
  when nothing changes.
- A cookie name may be configured that makes the theme loop fail: the empty one,
  one with `=`, `;`, blanks around it, or any character that is not visible ASCII,
  a blank or a tab, and one that begins with `__Secure-` or `__Host-` where http
  or a domain forbids that prefix. `ThemeExact.LoopWorksExactly` shows that, for
  page loads that another site does not embed and that send no other unreadable
  cookie, these are all the names for which it fails. The hosts of a fleet are those
  that its domain matches: a host that it does not, an IP address under a number for
  a domain among them, keeps no choice (`ThemeRuns.OutsideIsNotStored`).
- One cookie that is not visible text hides all others, because servers take the
  whole Cookie header or nothing of it (app-lb/src/admin.rs:3226-3229,
  app-lb/src/admin_login.rs:18-19). `ThemeLoop.OneCookieHidesTheTheme` and
  `SessionRuns.OneCookieHidesTheSession` set such a cookie in any state; the
  theorems over runs, `ThemeLoop.LoadStampsTheLatest` and
  `SessionRuns.GetCarriesTheLatestToken`, say what is read in every case.
- A GET that another site starts carries no session, since the cookie is
  `SameSite=Strict`; a page that another site embeds is dark, since the theme's
  is `SameSite=Lax`. Neither cookie can be set there: a click in an embedded page
  moves that page alone, and a handoff or logout inside another site's page changes
  nothing (`SessionRuns.FramesChangeNothing`). The same two theorems say so.

## Model

| member | source | states |
|---|---|---|
| JsonText.ReadPrinted | app-lb/src/allocation.rs:31-34 | reading what was printed, in front of any text that does not continue a number, gives back the value and that text |
| JsonText.PrintIsInjective | app-lb/src/allocation.rs:31-34 | two JSON values with the same compact text are the same value, key order included |
| JsonText.EscapesAreShortest | app-lb/src/allocation.rs:33 | no spelling of a character is shorter than the printed one: the two-character escapes of RFC 8259 are used wherever there is one |
| Json.SortedIsSound | app-lb/src/allocation.rs:32 | sorting changes no meaning, and leaves every object, at every depth, in strictly ascending key order |
| Json.OrderedIsUnique | app-lb/src/allocation.rs:32 | two sorted values that mean the same are identical |
| Json.SortingIsIdempotent | app-lb/src/allocation.rs:32 | a sorted value is left alone by sorting |
| Json.SortedEqualIffSameMeaning | app-lb/README.md:1087-1098 | sorted forms are identical exactly when the values differ at most in key order, at any depth |
| Canonical.CanonicalTextIffSameMeaning | app-lb/README.md:1087-1098 | canonical texts are equal exactly when the values mean the same; the order of array items counts |
| Canonical.CanonicalTextReadsBack | app-lb/src/allocation.rs:31-34 | the canonical text has a left inverse, up to key order |
| Canonical.DigestBinds | app-lb/src/allocation.rs:31-34 | digests are equal exactly when the values mean the same or their canonical texts collide, for any hash function |
| Prepare.FilledMeans | app-lb/src/allocation.rs:44-54 | every key of a filled-in request holds its explicit value, else the value of `driver` for `backend_type`, else its default; `driver` itself is gone |
| Prepare.DefaultsExactly | app-lb/src/allocation.rs:48-51 | an empty request is filled in with exactly these four fields and values |
| Prepare.FillingIsIdempotent | app-lb/src/allocation.rs:44-54 | filling in a filled-in request changes nothing |
| Prepare.SameRequestIffSameFilling | app-lb/src/allocation.rs:44-54 | two requests fill in to the same one exactly when they differ at most in key order, spelled-out defaults, and the spelling of `backend_type` as `driver` |
| Prepare.BackendDigestBinds | app-lb/src/allocation.rs:55-56 | backend digests agree exactly for same requests or on a hash collision; same requests are of the same kind |
| Prepare.RequestDigestBinds | app-lb/src/allocation.rs:55-57 | request digests agree exactly for the same request in the same scope, or when one of the two nested hashes collides |
| Prepare.KindExactly | app-lb/src/allocation.rs:55 | a request is an archive exactly when the archive key it was given is a string with some character that is not white, and else plain |
| Prepare.BackendDigestText | app-lb/src/allocation.rs:56 | the very text that is hashed: an object of kind and filled-in request, in this order, without a blank |
| Prepare.RequestDigestText | app-lb/src/allocation.rs:57 | the very text that is hashed: an object of backend digest and scope |
| Prepare.OperationIdsAreDistinct | app-lb/src/allocation.rs:58-60 | identities are equal exactly when the nonces are, and have the alphabet and a length that sending accepts |
| Prepare.Prepare | app-lb/src/allocation.rs:36-65 | every refusal in the order the code checks, with what a plain transport is spelled out; else the intent and body bound by both digests, the kind spelled out |
| Exchange.ReadReceipt | app-lb/src/allocation.rs:99-110 | the chunk loop reaches the outcome defined on the whole body, error for error, and accepts only on 200, or 202 in answer to a POST, only a receipt of the intent, and no body over the limit |
| Exchange.StatusesExactly | app-lb/src/allocation.rs:99-102 | 202 is as good as 200 in answer to a POST and unavailable in answer to a GET; every other status is unavailable |
| Exchange.AcceptedExactly | app-lb/src/allocation.rs:67-75 | on 200 the outcome is a receipt exactly when all chunks arrive, within 64 KiB, and decode to it, and it has the intent's identity and both digests and the shape of a sandbox identity |
| Exchange.SentExactly | app-lb/src/allocation.rs:86-90 | a request may be sent exactly over the intent's transport, under an identity of 1 to 128 characters of its alphabet, with a key |
| AllocationSafety.DaemonReads | app-lb/src/allocation.rs:62-65 | from the text of a prepared body the daemon computes exactly the digests of the intent |
| AllocationSafety.StepKeepsInv | app-lb/src/autoscale.rs:1246-1331 | every step of manager, network and daemon keeps the protocol's invariant |
| AllocationRuns.AtMostOnePost | app-lb/src/allocation.rs:1-2 | in every run no identity is POSTed twice; each POST has its intent on disk, and is exactly one of in flight, a sandbox, or lost |
| AllocationRuns.SandboxesMatchIntents | app-lb/README.md:2156-2163 | in every run each sandbox belongs to a durable intent with its very digests, and no two sandboxes to the same one |
| AllocationRuns.AcceptedReceiptsAreOwn | app-lb/src/allocation.rs:67-75 | whatever receipt the network hands to whatever call, an accepted one, in memory or on disk, is of a sandbox made for that intent; only saved ones are published |
| AllocationRuns.AnswersInMemoryAreSaved | app-lb/src/autoscale.rs:1314-1319 | in every run a sandbox that memory holds, while no call is saving it, is on disk: what could not be saved is forgotten |
| AllocationRuns.UnsavedAnswerIsForgotten | app-lb/src/autoscale.rs:1315-1318 | when the receipt of a POST cannot be saved, memory has neither it nor its sandbox, and nothing is published |
| AllocationRuns.PublishedOverOwnTransport | app-lb/src/autoscale.rs:1252-1260 | in every run a published sandbox was allocated over the transport in use, restarts with another one included |
| AllocationRuns.NothingUnsendableIsSent | app-lb/src/allocation.rs:86-90 | without a key, or over another transport than the intent's, nothing is put on the wire |
| AllocationRuns.SandboxNeverSwitches | app-lb/src/autoscale.rs:1262-1266 | no answer to a GET and no saved receipt replaces the sandbox that memory holds by another |
| AllocationRuns.OneUnknownPerDeployment | app-lb/src/autoscale.rs:1333-1338 | a deployment never has two attempts of unknown outcome, in memory or on disk, through failed saves and restarts |
| AllocationRuns.RecoveryLeavesTheDaemon | app-lb/src/allocation.rs:81-83 | any run without drafts, dispatches and arriving POSTs leaves the daemon and the count of POSTs alone |
| AllocationRuns.AbandonedForever | app-lb/src/allocation.rs:25-29 | an operation whose body was lost never gets a sandbox, in any continuation |
| AllocationRuns.AlwaysRecoverable | app-lb/src/autoscale.rs:1246-1289 | from every reachable state, restart and recovery steps alone publish any sandbox the daemon has made |
| AllocationRuns.LostAnswerIsRecovered | app-lb/src/allocation.rs:81-83 | when the answer to the POST is lost, one GET by the same manager publishes the sandbox, without a restart |
| AllocationRuns.AllocationSucceeds | app-lb/src/autoscale.rs:1291-1321 | from every reachable state an idle deployment can be drafted, saved, dispatched, answered and published, with whichever sandbox the daemon picks |
| FileNames.NamesOf | app-lb/src/auth_providers.rs:115-116 | for all keys whatsoever: final files are loaded ones, temporary ones never are, and neither can leave the directory |
| FileNames.ValidNameExactly | app-lb/src/config.rs:3574-3581 | the valid names are the texts of letters, digits, hyphens, underscores and dots, but the empty one, `.` and `..` |
| FileNames.SameFile | app-lb/src/auth_providers.rs:171-178 | two valid keys share a file, and a temporary file, exactly when their joined names are equal |
| FileNames.NamespacesShareFilesIffExtends | app-lb/src/auth_providers.rs:171-178 | two valid namespaces have objects sharing a file exactly when one, with the separator, begins the other |
| FileNames.KeysHaveOwnFiles | app-lb/src/auth_providers.rs:171-178 | in namespaces that share no file, keys, files and temporary files are one to one, and no temporary file is a final one |
| FileNames.UnderscoreFreeIsApart | app-lb/src/auth_providers.rs:167-178 | underscore-free namespaces share no file |
| FileNames.UnderscoresCollide | app-lb/src/config.rs:3574-3581 | ("a","b__c") and ("a__b","c") are valid and share a file |
| ProviderFiles.NormalizeIsIdempotent | app-lb/src/config.rs:5279-5289 | binding secret references to the namespace twice is binding them once |
| ProviderFiles.NormalizeBinds | app-lb/src/config.rs:5279-5289 | both secret references are bound to the provider's namespace, whatever they named, and nothing else changes |
| ProviderFiles.LoadedIsBound | app-lb/src/auth_providers.rs:138-151 | a file is loaded exactly when it can be read and parsed and, bound, has valid names and is in order; what is loaded is bound and else as it was written |
| ProviderFiles.LoadIsHeld | app-lb/src/auth_providers.rs:126-164 | where objects sit under their own names, load holds under each key just what that key's file holds |
| ProviderFiles.OrderDoesNotMatter | app-lb/src/auth_providers.rs:130-133 | there, any two enumerations load the same map and skip as many files |
| ProviderFiles.ScanCountsSkipped | app-lb/src/auth_providers.rs:152-158 | the skip counter is the number of .json files that do not read, parse or validate |
| ProviderFiles.ScanCountsAtMostFiles | app-lb/src/auth_providers.rs:161-163 | in any directory loaded and skipped add up to at most the .json files |
| ProviderFiles.ScanCountsFiles | app-lb/src/auth_providers.rs:161-163 | where objects sit under their own names they add up to exactly the .json files |
| ProviderFiles.PersistIsAtomic | app-lb/src/auth_providers.rs:109-119 | wherever a write stops, no other object changes and the written one is old or new, never in between |
| ProviderFiles.LeftoversAreInvisible | app-lb/src/auth_providers.rs:133-137 | any number of non-.json files, whatever is in them, change neither the load nor its skip count |
| ProviderStore.AuthProviderStore.Upsert | app-lb/src/auth_providers.rs:80-87 | memory gets the object first and keeps it though any I/O step fails; the directory is as the failing step left it |
| ProviderStore.AuthProviderStore.PersistOne | app-lb/src/auth_providers.rs:111-119 | the directory after each way the write can stop, half-written temporary file included |
| ProviderStore.AuthProviderStore.Remove | app-lb/src/auth_providers.rs:92-107 | memory loses the key first; a missing key or file and a failing unlink give `Ok(false)`, `Ok(true)` and an error |
| ProviderStore.AuthProviderStore.Load | app-lb/src/auth_providers.rs:126-164 | the loop publishes the map of the entries that could be listed and returns the counts, passing over, uncounted, an entry that could not; an unreadable directory changes nothing |
| ProviderStore.AuthProviderStore.List | app-lb/src/auth_providers.rs:51-61 | strictly ascending by name, and exactly the providers of the namespace that `get` finds, whatever order the map is visited in |
| ProviderStore.AuthProviderStore.ListAll | app-lb/src/auth_providers.rs:65-69 | strictly ascending by namespace and name, and exactly the providers that `get` finds, whatever order the map is visited in |
| ProviderList.ListingsAgree | app-lb/src/auth_providers.rs:51-69 | any results with the contracts of the two listings are unique, whatever order the map is visited in, and a namespace's listing is its slice of the full one |
| ProviderRuns.StepKeepsInv | app-lb/src/auth_providers.rs:80-107 | upserts, removals and restarts, with entries, files or the directory unreadable, keep memory and directory in agreement on a key that is not suspect and shares its file with no other |
| ProviderRuns.MemoryAgreesWithDisk | app-lb/src/auth_providers.rs:80-107 | after any start and any run, memory and every fresh load that reads the key's file agree on a key with no failure since it was last put right, if no other key of the run has that file |
| ProviderRuns.ProvidersStayBound | app-lb/src/auth_providers.rs:142-146 | in every run each provider's client secret and JWT secret, where present, are bound to its own namespace |
| ProviderRuns.SuspectsExactly | app-lb/src/auth_providers.rs:80-107 | a success clears its key, a failure marks it, and neither touches another |
| ProviderRuns.CrashIsAllOrNothing | app-lb/src/auth_providers.rs:109-119 | after a crash anywhere in an upsert the next load is the old map, or the old map with the new object |
| ProviderRuns.CrashesPileUp | app-lb/src/auth_providers.rs:109-119 | after any number of cut-short upserts the next load is the old map with exactly those that reached their rename |
| ProviderRuns.CrashSkipsNothingNew | app-lb/src/auth_providers.rs:133-158 | and skips no file that was not skipped before |
| ProviderRuns.RemovalSticksExactly | app-lb/src/auth_providers.rs:92-107 | a key removed from memory stays away from the next load if and only if the unlink succeeded or its file held nothing; every retry answers `Ok(false)` without touching the file |
| ProviderRuns.FailedRemovalComesBack | app-lb/src/auth_providers.rs:92-107 | after a failed unlink every retry answers `Ok(false)` without touching the file, and the next restart brings the object back |
| ProviderRuns.BothSurviveIffOwnFiles | app-lb/src/auth_providers.rs:171-178 | of two upserted objects both are loaded exactly when their keys have different files; else only the later one |
| ProviderWriters.StepKeepsInv | app-lb/src/auth_providers.rs:80-119 | every step of every writer and remover keeps the invariant of the interleaving |
| ProviderWriters.DiskIsExact | app-lb/src/auth_providers.rs:92-119 | in every interleaving of upserts and removals of different files the directory holds each completed upsert, nothing of each completed removal, and every other key as before |
| ProviderWriters.NextLoadRecovers | app-lb/src/auth_providers.rs:126-164 | the next load has every completed upsert, even one that memory dropped, and no completed removal, even one that memory undid |
| ProviderWriters.ReadersSeeWholeMaps | app-lb/src/auth_providers.rs:82-97 | readers see only old objects and those put by their own writer, and nothing vanishes but what is removed |
| ProviderWriters.PublicationShows | app-lb/src/auth_providers.rs:82-97 | in every run a publication shows its own upsert, or no longer shows what it removes |
| ProviderWriters.AbsentTouchesNothing | app-lb/src/auth_providers.rs:94-106 | in every run a remover that copied a map without its key never completes and leaves the key's file as it was at the start |
| ProviderWriters.FoundIsUnlinked | app-lb/src/auth_providers.rs:98-106 | a remover that found its object can go on to unlink its file |
| ProviderWriters.AnyPartMayBeLeft | app-lb/src/auth_providers.rs:117 | a writer may stop with any part of its temporary file written |
| ProviderWriters.RaceDropsAKey | app-lb/src/auth_providers.rs:82-84 | any two upserts can interleave so that both complete and memory lacks the first key |
| ProviderWriters.PublishedStaysExactly | app-lb/src/auth_providers.rs:82-84 | a published upsert stays in memory in every continuation if and only if no writer has yet to publish a copy without it |
| ProviderWriters.RaceUndoesARemoval | app-lb/src/auth_providers.rs:93-105 | any removal can interleave with an upsert so that both complete, the file is gone, and memory has the removed object again |
| ProviderWriters.RemovedStaysGoneExactly | app-lb/src/auth_providers.rs:93-97 | a published removal keeps its key out of memory in every continuation if and only if no writer has yet to publish a copy made before |
| Html.EscapeString | ui/ui.rs:382-395 | the loop over the characters writes the escaped text |
| Html.UnescapeEscape | ui/ui.rs:382-395 | resolving references undoes escaping |
| Html.EscapeIsInjective | ui/ui.rs:382-395 | different texts have different escaped forms |
| Html.ReadWritten | ui/ui.rs:380-395 | tokenizing written markup gives exactly the tags that were meant, whatever texts and values it carries |
| HtmlInput.NewlinesEscape | ui/ui.rs:382-395 | escaping and a browser's normalisation of newlines commute |
| HtmlInput.PageIsRead | ui/ui.rs:380-395 | a browser reads written markup as the tags that were meant, each text and value with its newlines normalised |
| HtmlInput.GivenBackExactly | ui/ui.rs:380-395 | and just as it was given exactly when no text has a carriage return and no attribute value one or a null character |
| TopBar.TopBarHtml | ui/ui.rs:407-438 | the strings pushed one after the other spell the markup of the bar |
| TopBar.TopBarTokens | ui/ui.rs:407-438 | for every app name, list of entries and signed-in name a browser reads the bar as the one intended tag sequence |
| TopBar.BarIsGivenBackExactly | ui/ui.rs:407-438 | and every text and value comes back as given exactly when there is no carriage return, and no null character in a link or the signed-in name |
| TopBar.EntryIsRead | ui/ui.rs:415-426 | an entry is read as a link to its address around its label, marked as the current page exactly when it is |
| CookieDomain.NormalizesExactlyDomains | ui/ui.rs:189-204 | a text is accepted exactly when, without blanks and end dots, it is two or more labels of letters, digits and inner hyphens within the length limits; the result is its lower-case form |
| CookieDomain.LabelExactly | ui/ui.rs:194-202 | a label is 1 to 63 letters, digits and hyphens, with no hyphen at either end |
| CookieDomain.CaseDoesNotMatter | ui/ui.rs:203 | upper and lower case normalise alike, refusals included |
| CookieDomain.BlanksDoNotMatter | ui/ui.rs:190 | so does a domain with blanks around it |
| CookieDomain.EndDotsDoNotMatter | ui/ui.rs:190 | and one with dots at its ends |
| CookieDomain.NormalizeIsIdempotent | ui/ui.rs:189-204 | a normalised domain is its own normal form |
| Theme.ThemeFromCookieHeader | ui/ui.rs:160-180 | the loop returns the first recognised value among the pairs of the name, and dark when there is none |
| Theme.ParseExactly | ui/ui.rs:140-147 | the recognised values are the three words and `auto`, with or without blanks around them |
| Theme.BlanksAndQuotesDoNotMatter | ui/ui.rs:164-175 | blanks around the name, the value and the word, and quotes around the value, do not matter |
| Theme.FirstAndLast | ui/ui.rs:160-180 | a recognised value is the first, or the last, when none is recognised before, or after, it |
| Theme.FirstWinsVersusLastWins | ui/ui.rs:170-176 | the loop and the comment beside it agree exactly when the first and the last part of the header with a recognised value ask for the same theme |
| Theme.CommentAndLoopDiffer | ui/ui.rs:170-176 | on any two different themes under one name the loop gives the first and the comment the second |
| Theme.UnreadableIsDark | ui/ui.rs:164-179 | under a name with `=`, `;` or blanks around it no header asks for any theme |
| Theme.ResolveExactly | ui/ui.rs:278-297 | a configured name is used as it is, the default is `heyo_theme`, and the domain is the normalised one or none |
| Theme.HtmlAttrs | ui/ui.rs:211-220 | the attribute text is the writing of the intended attributes, after the re-normalised domain |
| ThemeScript.Page.ReadCookie | ui/theme.js:60-69 | the loop finds the first part that begins with the name |
| ThemeScript.Page.WriteCookie | ui/theme.js:71-89 | the browser receives the line pushed together from name, theme, domain and protocol |
| ThemeScript.Page.Current | ui/theme.js:91-96 | the stamped theme, else the cookie's, else dark |
| ThemeScript.Page.Apply | ui/theme.js:98-108 | the root and every button show the theme |
| ThemeScript.Page.Next | ui/theme.js:110-113 | the theme after the current one, cyclically |
| ThemeScript.Page.Set | ui/theme.js:115-119 | cookie, root and buttons after a choice; a word outside the order means dark |
| ThemeScript.LabelsExactly | ui/theme.js:44 | a label is a word that the server reads as the theme, and the theme's own word except for `system` |
| ThemeRuns.StampedTagIsRead | ui/ui.rs:206-220 | a browser reads the stamped tag as one tag with the intended attributes |
| ThemeRuns.ScriptReadsServer | ui/theme.js:46-58 | the script reads back the server's theme and domain always, and its cookie name exactly when that is not empty and has no null character or carriage return |
| ThemeRuns.ResolveResolves | ui/ui.rs:278-297 | a resolved domain is left alone by the second normalisation of the attribute writer |
| ThemeRuns.DomainIsPlainText | ui/ui.rs:213-215 | escaping, trimming and the tokenizer leave a normalised domain unchanged |
| ThemeRuns.LineIsStored | ui/theme.js:71-89 | whichever tab of the fleet writes, the jar changes in the one cookie, for a year; if another site embeds the tab, in nothing |
| ThemeRuns.OutsideIsNotStored | ui/ui.rs:184-188 | a tab on a host that the domain does not match, such as an IP address under a number for a domain, writes nothing |
| ThemeLoop.StepKeepsInv | ui/theme.js:71-119 | page loads, clicks, choices, time and other cookies, in embedded tabs too, keep jar and tabs in step with the latest write of a tab that is not embedded |
| ThemeLoop.LoadStampsTheLatest | ui/ui.rs:299-311 | in every run over any tabs, each page load stamps the theme most recently written by any tab that no other site embeds, or dark a year later, unless another site embeds the page itself or some cookie sent is not visible text: then dark |
| ThemeLoop.OneCookieHidesTheTheme | app-lb/src/admin.rs:3226-3229 | in any state one cookie of another name that is not visible text makes the next page dark |
| ThemeLoop.ShadowedExactly | ui/ui.rs:170-176 | of a host-only and a domain-wide cookie of the name, the domain-wide choice is served exactly when it is sent first or the two agree |
| ThemeShadow.ShadowedByAge | ui/ui.rs:170-176 | in the order of section 5.4 of RFC 6265 that is exactly when it is the older cookie or the two agree |
| ThemeShadow.HostOnlyShadowsEveryChoice | ui/ui.rs:170-176 | a host-only cookie older than the fleet's shadows every later choice, in every run |
| ThemeLoop.ClickMovesOn | ui/theme.js:110-119 | a click writes and shows the theme after the one shown; in an embedded tab it only shows it |
| ThemeLoop.ChosenExactly | ui/theme.js:110-119 | what a choice and a click write: the word's theme or dark, and the theme after the one shown |
| ThemeLoop.ChoiceExpires | ui/theme.js:75-77 | the choice lasts a year to the second |
| ThemeExact.LoopWorksExactly | ui/ui.rs:278-311 | every page load of every run, that another site does not embed and no other unreadable cookie spoils, shows the latest choice made in a tab that is not embedded, if and only if the configured name is usable |
| CookieJar.HeaderIsText | app-lb/src/admin_login.rs:18-19 | a Cookie header has a text exactly when every cookie in it is visible |
| Session.OnlyPairIsRead | app-lb/src/admin_login.rs:18-22 | the only pair of the name, anywhere in any header, is the one that is read |
| Session.TokenComesBack | app-lb/src/admin_login.rs:15-30 | a token that handoff accepts comes back as the same bearer from any headers where it is the only pair of the name, at any position |
| Session.SecondPairIsRefused | app-lb/src/admin_login.rs:22-24 | a second pair of the name, in the same header or another, is always refused |
| Session.NamesExactly | app-lb/src/admin_login.rs:20-21 | a piece names the cookie exactly when, trimmed, it starts with the name and an equals sign, and what follows is the value |
| Session.PiecesExactly | app-lb/src/admin_login.rs:18-19 | the pieces are those between the semicolons of the headers that have a text |
| Session.LetInExactly | app-lb/src/admin_login.rs:15-30 | a request is let in with a token if and only if it has no Authorization, the token is safe and in the only pair of the name, and it is a GET or HEAD without an upgrade or from the same origin |
| Session.RefusedExactly | app-lb/src/admin_login.rs:16-28 | a request is anonymous if and only if it has Authorization, whatever its cookies, or no pair of the name; a write or an upgrade from another origin is never let in |
| Session.CookieSafeExactly | app-lb/src/admin_login.rs:23-24 | a safe token is 1 to 3800 letters, digits, dots, underscores and hyphens |
| Session.SessionsAreCookieSafe | app-lb/src/admin_login.rs:64-69 | every bearer of a session is a token that handoff would accept |
| Session.CookieDiesWithItsToken | app-lb/src/admin_login.rs:80-87 | a cookie dies with its token, but after a minute at the earliest and a day at the latest, and after an hour when the token claims no expiry |
| Session.HandoffOpensExactly | app-lb/src/admin_login.rs:121-147 | a handoff opens the dashboard if and only if the namespace is valid, the token safe and known, and its grant covers the namespace or the fleet; which refusal means what |
| SessionRuns.LineIsStored | app-lb/src/admin_login.rs:143-153 | the line of a handoff replaces the host's one cookie with its lifetime; the line of a logout removes it; inside another site's page neither does anything |
| SessionRuns.FramesChangeNothing | app-lb/src/admin_login.rs:107-120 | a handoff or logout from inside another site's page leaves the jar as it was |
| SessionRuns.StepKeepsInv | app-lb/src/admin_login.rs:121-154 | handoffs, logouts, time and foreign cookies keep the jar in step with the latest handoff that was not made inside another site's page |
| SessionRuns.GetCarriesTheLatestToken | app-lb/src/admin_login.rs:15-30 | in every run a plain GET sends at most one cookie of the name, is never refused, and carries the token of the latest handoff not made inside another site's page and not followed by logout or expiry, if the site itself starts it and every cookie sent is visible text; otherwise no session |
| SessionRuns.SessionEnds | app-lb/src/admin_login.rs:138-144 | a session lasts its lifetime to the second |
| SessionRuns.OneCookieHidesTheSession | app-lb/src/admin_login.rs:18-22 | in any state one cookie that the host sets for something else, and that is not visible text, hides the session |
| SessionRuns.CookieNeverOutlivesItsToken | app-lb/src/admin_login.rs:80-87 | in every run a live cookie dies no later than its token's expiry or a minute after it was issued |

## Left out

- HTTP, TLS, unix sockets, redirects and timeouts: an exchange is its method, its preconditions, the status, the chunks of the body and the receipt check.
- SHA-256, base64, the URL parser, receipt decoding and `decodeURIComponent` are parameters, any function of their type. Where `decodeURIComponent` throws, the script is taken to fall back to dark.
- Random bytes are an input. That a nonce is new is an assumption of the protocol (the guard of `Draft`), not a result.
- UTF-8: texts are sequences of Unicode scalar values, and lengths count those. The bounds of 253, 63, 128 and 3800 bytes apply to texts that are ASCII once accepted. String order by scalar values is string order by UTF-8 bytes.
- Floating-point JSON numbers: numbers are integers.
- The provider codec is any pair of functions that round-trips; the part of provider validation that is not about names is any predicate.
- Power loss: the code does no fsync, so only process crashes are modelled, for the journal and for the provider directory.
- Concurrent operations on one key, whose upserts share a temporary path: writers have different files.
- Removing an attempt after an error that shows nothing was sent (app-lb/src/autoscale.rs:1322-1327) is left out: none of those errors arises in a correlated exchange.
- `runtime_observed`, which ends the recovery of an attempt whose VM was seen running, workspace seeds, and retirement of attempts.
- Whether Origin and Host agree, and how the auth service resolves a token, are inputs.
- Character references other than the five the escaper writes, and the other tokenizer states: entering one of those states gives a token that no intended sequence has, and the texts that the escaper writes contain no other reference. What a parser builds from the tokens is left out (it drops a null character in text).
- The Expires attribute, path matching, the list of public suffixes, name prefixes newer than `__Secure-` and `__Host-`, limits on the number and size of cookies, and their eviction by the browser or its user: every cookie studied has a Max-Age and the path `/`. A request has one Cookie header.
- A cookie of the theme's name set by anyone but the toggle, outside `ThemeShadow`, and one of the session's name set on its host by anyone but handoff and logout (`login` sets it the same way).
- Hosts are as the URL parser leaves them: one whose last label is a number is an IPv4 address.
- The order in which cookies are sent: any order, so the theorems hold for that of section 5.4 of RFC 6265 (longer paths first, then older cookies).
- JavaScript's `trim` differs from Rust's on a few characters, none of which a stamped domain has.
- Other scripts that change the root element: a tab starts from what the server stamped and is changed by its own toggle only.
- `login`, `page`, `asset`, `head_tags`, the identity headers and reading the environment: one-branch or library facts.
- The protocols that only the documentation describes (physical handoff, candidate-first rollout, job claims, routing precedence).
