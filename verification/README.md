# Sockethub: verified models of its protocol cores

Sockethub lets browsers talk to IRC, XMPP, CalDAV, CardDAV and feeds through one
ActivityStreams socket. This project models the parts of it where state, text
formats or bounded protocols interact, and proves what they promise.

**Text formats** (`JsString`, `TextEscape`, `EscapePairs`, `LineFolding`, `FoldedBody`,
`QuotedScan`, `ICalLine`, `ICalText`, `ICalObject`, `ICalLineEnds`, `ICalReading`,
`ICalRoundTrip`, `ICalDisguise`, `VCard`, `VCardReading`, `VCardRoundTrip`, `VCardCycles`,
`PrintedLines`).
JavaScript strings are sequences of UTF-16 units. The successive replacement
passes, the folding at 75 octets, the quote-aware scanning and the regular
expressions of the parsers are modelled as the code applies them; the printers and
parsers of whole calendar objects and contacts are methods with the source's loops,
each proved equal to a function about which the round trips are proved.

**Server worker selection** (`JsonKey`, `JsMap`, `Scopes`, `ScopeRuns`,
`EnsureChain`, `Workers`, `WorkerSteps`). A JavaScript `Map` is its entries in insertion order. The
scope registry, the promise chain of `ensureProcess` and the map of running workers
are classes; the runs of the server are step systems over their states.

**Client session** (`ClientState`, `ClientRuns`, `ClientReplays`, `ClientSteps`, `Client`). The class performs every
event on its fields; what it leaves is given by functions, and fates, order,
initialisation, waiters and replay maps are invariants of every run.

**Bounded protocols** (`TimeZone`, `RedisPurge`, `Dav`, `DavOutcome`). Weekly sampling with a
binary search over an arbitrary zone, the glob-escaped key purge over an arbitrary
scan, and the redirect and authentication recursion over an arbitrary network.

## What holds only under a condition

Each item names the lemma that gives the condition in both directions and the input or
the run on which it fails. The one condition that is not exact is the octet bound for
folded contact lines that are not ASCII.

- A calendar *event* is read back only if no text of it holds `BEGIN:VTODO` between
  line or paragraph separators (U+2028, U+2029): the parser's `m` flag treats those
  as line ends and looks for a task. An empty uid or title is printed but refused by
  the parser (`ICalDisguise.ComesBackExactly`, `ICalRoundTrip.DisguisedTitle`).
- Contact text survives printing and reading exactly when no backslash is directly
  followed by n or N (`TextEscape.VCardTextRoundTrip`).
- A mail address or telephone of a contact comes back as it was exactly when its text
  survives, without a carriage return, and has no leading `mailto:` (or `tel:`, for a
  telephone). A URL is printed raw but read as escaped text: it must hold no escape
  sequence and have no leading `mailto:` (`VCardRoundTrip.ValueComesBack`).
  Its types come back exactly when they have no capital letters and none of them is
  `pref` (`VCardRoundTrip.TypedComesBack`, `VCardRoundTrip.AddressComesBack`).
- A list of additional names, prefixes or suffixes is split at commas only after it was
  unescaped; it comes back exactly when its text survives, without a carriage return, and
  no name holds a comma that cuts it or swallows the one behind it
  (`VCardRoundTrip.NamesComeBack`).
- The continuation lines of a folded contact line keep to 75 octets, as section 3.2 of
  RFC 6350 recommends, exactly below 150 characters when the line is ASCII
  (`LineFolding.AsciiContinuationsFit`, `LineFolding.ContinuationReaches76`). For any
  other text 144 octets are always few enough, and 145 can be too many
  (`LineFolding.ShortContinuationsFit`, `LineFolding.EarlyCut`).
- Unknown contact lines survive a sequence of updates exactly when none of the lines
  that the first update prints again starts with a blank; such a line does get stored
  when the card contains an empty physical line followed by a continuation
  (`VCardCycles.CyclesPreserveExactly`, `VCardCycles.BlankLineHappens`).
- Two sessions can end up on one session-derived scope when both resolve it before
  either remembers it, or when a rename puts a record over a seat where another
  connected session holds the same scope. A remembering or a rename is harmless
  exactly under the guard of `ScopeRuns.SafeExactly`, and a reachable state is beyond
  harm exactly when scopes are exclusive and records owned (`ScopeRuns.PrivateExactly`,
  `ScopeRuns.StaleCommitHappens`, `ScopeRuns.UnsafeRenameHappens`).
- A scope record can point at a worker that is gone, exactly when a call reuses a
  worker whose teardown has begun while its child process has not exited
  (`Workers.PointsInsideExactly`, `Workers.ReuseDangles`, `Workers.ReuseHappens`).
- Workers and identifiers stay one to one exactly while renames go to free identifiers; a
  rename to one in use, or to one whose worker is being replaced, ends with two serving
  workers under it (`Workers.SingleExactly`, `Workers.TwinsFollow`, `Workers.DuplicateHappens`).
- The instance limit is kept exactly when every step that takes a further slot finds one
  that is really free. It is exceeded in two ways: a worker is created in the slot that a
  replacement's teardown has just freed, or a worker that has lost its own slot to another
  worker's rename is itself renamed (`Workers.CapExactly`, `Workers.LimitExceeded`,
  `Workers.NoRoomHappens`, `Workers.SlotlessRenameHappens`).
- The plain key of pending scopes is ambiguous once a platform name holds a colon
  (`JsonKey.ScopeKeyInjective`, `JsonKey.ScopeKeyAmbiguous`).
- After a reconnect the client replays exactly if no registry with an empty version or
  context URL arrives first: such a payload uses the cycle up, and the next good
  payload makes the client ready without a replay (`ClientRuns.ReplayLostExactly`,
  `ClientRuns.LostReplayHappens`).
- A time-zone block holds all changes, and gives the zone's offset at every second up to
  its last sample, exactly when no week holds two changes (`TimeZone.BlockMeans`,
  `TimeZone.TransitionsComplete`, `TimeZone.TwoChangesMissed`).
- The purge reaches another server's keys exactly when one of the two key prefixes
  continues the other, which takes a colon in one of the two ids; generated ids are
  alphanumeric (`RedisPurge.ReachExactly`, `RedisPurge.OthersAreSafe`,
  `RedisPurge.ColonExposes`).
- A digest nonce and count go out together twice exactly when one nonce was adopted
  twice, both times with qop, and used both times; without qop no count is sent
  (`Dav.ReplayedExactly`, `Dav.ReofferedNonceReplays`).

Where comments and code differ the model follows the code. A comment on
`rememberAnonymousScope` says that a scope can never outlive the connection it points at;
a teardown forgets the scopes when it starts but drops the instance only after an awaited
queue shutdown, and `Workers.ReuseDangles` shows what can be recorded in between.

## Premises

A socket id is never used again; an action names an actor; runs of `ensureProcess` for
one identifier do not overlap (proved in `EnsureChain`, assumed in `Workers`); `schemas`
payloads reach the client only while it is connected; every postal address has the seven
parts that the printer writes; callbacks and event handlers of the
client neither throw nor call back into it; a full Redis SCAN returns every key that stays.
Normalisation, validation, network answers, URL resolution and zone data are arbitrary
functions. `dafny verify dfyconfig.toml` checks the whole project.

## Model

| member | source | states |
|---|---|---|
| TextEscape.ICalEscapeIsOnePass | packages/platform-caldav/src/ical.ts:18-28 | the successive replaceAll passes equal one left-to-right pass over the original text |
| TextEscape.ICalTextRoundTrip | packages/platform-caldav/src/ical.ts:18-34 | unescaping escaped text gives the text back for every input, CR and CRLF becoming LF |
| TextEscape.VCardEscapeIsOnePass | packages/platform-carddav/src/vcard.ts:66-72 | the contact printer's passes give the same one-pass result |
| TextEscape.VCardTextReadBack | packages/platform-carddav/src/vcard.ts:60-72 | what the four unescape passes make of any escaped text |
| TextEscape.VCardTextRoundTrip | packages/platform-carddav/src/vcard.ts:60-72 | contact text survives a round trip iff no backslash is directly followed by n or N |
| TextEscape.SplitEscaped | packages/platform-carddav/src/vcard.ts:42-58 | the loop computes the split at separators that are not escaped |
| TextEscape.SplitInvertsJoin | packages/platform-carddav/src/vcard.ts:42-72 | splitting joined escaped components returns exactly those components, for arbitrary text |
| TextEscape.SplitExactly | packages/platform-carddav/src/vcard.ts:42-58 | any text is split into given parts iff they join to it and none of them can be cut or ends with an open escape before a separator |
| EscapePairs.CalendarTextExactly | packages/platform-caldav/src/ical.ts:30-34 | calendar text from anybody is read as a text iff it writes it unit by unit, escaped or bare, a line feed as `\n` or `\N` |
| EscapePairs.ParameterTextExactly | packages/platform-caldav/src/ical.ts:47-55 | a parameter value from anybody, quoted or not, is read as a text iff it writes it with caret pairs (RFC 6868, section 3) |
| EscapePairs.ContactTextExactly | packages/platform-carddav/src/vcard.ts:60-64 | contact text from anybody is read by undoing one kind of pair after the other |
| LineFolding.FoldLine | packages/platform-caldav/src/ical.ts:170-183 | the loop over code points produces the folded line |
| LineFolding.ICalFoldFits | packages/platform-caldav/src/ical.ts:169-183 | nothing is lost, no code point is split, every physical line has at most 75 octets and is as long as that allows |
| LineFolding.ICalUnfoldInvertsFold | packages/platform-caldav/src/ical.ts:364-383 | the unfolding replacement undoes the folding of all lines of a body |
| LineFolding.Fold | packages/platform-carddav/src/vcard.ts:272-286 | the cutting loop terminates, never reaches its error and produces the folded line |
| LineFolding.VCardFoldFits | packages/platform-carddav/src/vcard.ts:272-286 | every chunk has at most 75 octets, no surrogate pair is cut, nothing is lost |
| LineFolding.ContinuationReaches76 | packages/platform-carddav/src/vcard.ts:275-285 | every ASCII line of 150 characters has a continuation line of 76 octets |
| LineFolding.AsciiContinuationsFit | packages/platform-carddav/src/vcard.ts:272-286 | for an ASCII line every continuation line has at most 75 octets iff the line has fewer than 150 characters |
| LineFolding.ShortContinuationsFit | packages/platform-carddav/src/vcard.ts:272-286 | whatever the text, a line of at most 144 octets has no continuation line above 75 octets |
| LineFolding.EarlyCut | packages/platform-carddav/src/vcard.ts:276-279 | lines of 145 octets with a longer continuation line, so 144 is the best bound |
| LineFolding.Unfold | packages/platform-carddav/src/vcard.ts:28-40 | the loop merges continuation lines as specified |
| LineFolding.VCardUnfoldFolded | packages/platform-carddav/src/vcard.ts:28-40 | what unfolding makes of any folded body |
| LineFolding.VCardUnfoldInvertsFold | packages/platform-carddav/src/vcard.ts:28-40 | unfolding returns the folded lines iff no line but the first starts with a blank |
| ICalLine.ParameterRoundTrip | packages/platform-caldav/src/ical.ts:36-55 | decoding an encoded parameter gives the value back, newlines becoming LF (RFC 6868, section 3) |
| ICalLine.EncodedClosed | packages/platform-caldav/src/ical.ts:36-75 | no separator inside an encoded parameter is seen outside quotes |
| ICalLine.SplitOutsideQuotes | packages/platform-caldav/src/ical.ts:62-75 | the loop splits at the separators outside quotes |
| ICalLine.SplitInvertsJoin | packages/platform-caldav/src/ical.ts:62-75 | splitting joined parts that are closed for the separator returns them |
| ICalLine.ParseContentLine | packages/platform-caldav/src/ical.ts:77-111 | the two scanning loops compute the parsed line, or nothing without a name |
| ICalLine.ParseInvertsPrint | packages/platform-caldav/src/ical.ts:77-111 | a printed line gives back its name, parameters and value |
| ICalLine.PersonRoundTrip | packages/platform-caldav/src/ical.ts:36-111 | every person comes back from the printed line; only an address with a line break is refused |
| ICalText.TestLines | packages/platform-caldav/src/ical.ts:384-385 | where the multiline test finds its word in text made of lines |
| ICalText.SectionOfLines | packages/platform-caldav/src/ical.ts:386-391 | the section match returns the lines between the first opening and its close |
| ICalText.SplitInvertsJoin | packages/platform-caldav/src/ical.ts:403-403 | splitting at line ends returns the lines |
| ICalLineEnds.ReadAlike | packages/platform-caldav/src/ical.ts:378-440 | two bodies that unfold to the same text but for CRLF and LF are read alike |
| ICalObject.BuildICalendar | packages/platform-caldav/src/ical.ts:299-365 | the printer refuses what it must and otherwise prints the specified, folded lines |
| ICalReading.AcceptedExactly | packages/platform-caldav/src/ical.ts:299-362 | printing is refused iff the uid has a path separator, percent sign or line break, or the url or an address has a line break |
| PrintedLines.CalendarPrinted | packages/platform-caldav/src/ical.ts:315-364 | who unfolds a printed object finds the header, the zone, the component with its properties by name and in order, and the end |
| ICalObject.ParseICalendar | packages/platform-caldav/src/ical.ts:378-425 | the parser computes the reading of any body |
| ICalObject.CollectLines | packages/platform-caldav/src/ical.ts:399-409 | the value map holds, for every name, the parsed lines of that name in order |
| ICalObject.ReadComponent | packages/platform-caldav/src/ical.ts:410-440 | uid, title, text fields, organizer and attendees of a component, or the error |
| ICalReading.ReadsComponent | packages/platform-caldav/src/ical.ts:378-440 | any body around a component, its lines ended by CRLF or LF and folded with spaces or tabs in any mix, is read as the component's own lines without its reminders |
| ICalReading.SameLinesReadAlike | packages/platform-caldav/src/ical.ts:383-403 | bodies of the same lines are read alike, however the lines end and are folded |
| ICalReading.ReadExactly | packages/platform-caldav/src/ical.ts:399-505 | the item exists iff the first uid and the first title are not empty, and the first line of each property and all attendee lines decide it |
| ICalReading.LineRefused | packages/platform-caldav/src/ical.ts:84-93 | a line says nothing iff it has no colon outside quotes or the first one stands at its start |
| ICalReading.LineExactly | packages/platform-caldav/src/ical.ts:94-111 | name in any case, parameters and value of every other line |
| ICalReading.ParameterExactly | packages/platform-caldav/src/ical.ts:98-105 | the last parameter that sets a key, in any case, decides it |
| ICalRoundTrip.CalendarRoundTrip | packages/platform-caldav/src/ical.ts:299-425 | printing then parsing gives the object back exactly under the stated condition, and an error otherwise |
| ICalRoundTrip.FieldDisguised | packages/platform-caldav/src/ical.ts:384-385 | a printed text field is taken for a task line iff its text holds the word between separators |
| ICalDisguise.PersonDisguised | packages/platform-caldav/src/ical.ts:36-60 | a printed person is taken for a task line iff the address, or the display name before its closing quote, holds the word between separators |
| ICalDisguise.DisguisesExactly | packages/platform-caldav/src/ical.ts:299-391 | an event is taken for a task iff one of its texts (uid, stamp, title, description, location, url, organizer, attendees) or a line given to the printer holds the word |
| ICalDisguise.ComesBackExactly | packages/platform-caldav/src/ical.ts:299-440 | what is printed is read back as it was iff uid and title are not empty and, for an event, none of its texts holds the word between separators |
| ICalDisguise.BareEventRoundTrip | packages/platform-caldav/src/ical.ts:299-425 | an event of uid and title comes back iff both are non-empty and neither holds the word between separators |
| ICalRoundTrip.DisguisedTitle | packages/platform-caldav/src/ical.ts:384-391 | a title that prints and cannot be read back |
| VCard.ParseContentLine | packages/platform-carddav/src/vcard.ts:74-109 | name without group, parameters and value, or the error without a colon |
| VCard.ParseVCard | packages/platform-carddav/src/vcard.ts:126-258 | the parser computes the reading of any body |
| VCard.CollectCard | packages/platform-carddav/src/vcard.ts:137-242 | known properties fill the card, other lines are kept verbatim, in order |
| VCardReading.ReadingExactly | packages/platform-carddav/src/vcard.ts:126-258 | a body is a card iff its lines are framed, each is empty or has a colon, a version line says 3.0 or 4.0 and the last uid and name are not empty; and the fields are those its own lines give: the last line of each text and version, the first component of an organization, all values, links and addresses in order, the unknown and embedded ones preserved |
| VCardReading.ReadsLines | packages/platform-carddav/src/vcard.ts:28-40 | the same for lines ended by CRLF or LF and folded with spaces or tabs in any mix |
| VCardReading.NormalizedAlike | packages/platform-carddav/src/vcard.ts:28-32 | bodies that differ in how their lines end are read alike |
| VCardReading.LineRefused | packages/platform-carddav/src/vcard.ts:74-84 | a line is refused iff it has no colon outside quotes or the first one stands at its start |
| VCardReading.LineExactly | packages/platform-carddav/src/vcard.ts:85-108 | group, name in any case, parameters and value of every other line |
| VCardReading.ParametersExactly | packages/platform-carddav/src/vcard.ts:90-107 | a key holds what the last parameter that sets it says, in small letters, and TYPE also the bare ones after it |
| VCardReading.SchemeExactly | packages/platform-carddav/src/vcard.ts:118-118 | a scheme before a value is dropped in any case, and nothing else is |
| VCard.BuildVCard | packages/platform-carddav/src/vcard.ts:288-352 | the printer refuses what it must and otherwise prints the fields and the preserved lines |
| VCardReading.AcceptedExactly | packages/platform-carddav/src/vcard.ts:260-349 | printing is refused iff the uid could leave its path, a type is no word, a raw value has a line break, or a preserved line has a break or no name |
| PrintedLines.CardPrinted | packages/platform-carddav/src/vcard.ts:277-351 | who unfolds a printed card finds its own properties by name and in order, then the preserved lines printed again, inside the frame |
| VCard.PrintPreserved | packages/platform-carddav/src/vcard.ts:342-349 | exactly the unknown lines, and photos unless replaced, are printed again |
| VCardReading.AgainExactly | packages/platform-carddav/src/vcard.ts:342-349 | a preserved line is printed again iff it names no property of the printer, or is a photo and no photos replace it |
| VCardRoundTrip.ValueComesBack | packages/platform-carddav/src/vcard.ts:111-124 | a printed mail address, telephone or URL is read back unchanged iff it has no scheme the parser drops, and, escaped text, no carriage return and no backslash before n, or, a raw URL, no escape sequence |
| VCardRoundTrip.TypedComesBack | packages/platform-carddav/src/vcard.ts:111-124 | a value comes back with its types and its preference iff the value does and its types are in small letters and none is pref |
| VCardRoundTrip.AddressComesBack | packages/platform-carddav/src/vcard.ts:184-200 | a postal address comes back iff every part survives the text round trip and its types are such |
| VCardRoundTrip.NamesComeBack | packages/platform-carddav/src/vcard.ts:155-165 | a list of names inside N comes back iff its text survives the text round trip and its names can be told apart after unescaping |
| VCardCycles.FieldsLeaveNothing | packages/platform-carddav/src/vcard.ts:137-240 | the parser reads every line printed from a contact's own fields without error and preserves none of them |
| VCardRoundTrip.ReadIsPreservable | packages/platform-carddav/src/vcard.ts:126-258 | every preserved line of a parsed body can be printed again |
| VCardRoundTrip.KeptTwice | packages/platform-carddav/src/vcard.ts:342-349 | filtering preserved lines in two updates is filtering them once with both |
| VCardCycles.CardRoundTrip | packages/platform-carddav/src/vcard.ts:126-352 | a printed card reads back as the contact, with its typed values and addresses and exactly the lines printed again; without uid or name it is refused |
| VCardCycles.BlankLinesAreLost | packages/platform-carddav/src/vcard.ts:28-40 | with a blank-started line among them fewer lines come back |
| VCardCycles.BlankLineStored | packages/platform-carddav/src/vcard.ts:28-40 | a preservable line that starts with a blank is stored when it is written after an empty physical line |
| VCardCycles.BlankLineHappens | packages/platform-carddav/src/vcard.ts:28-40 | a readable card that stores such a line, and an update that succeeds and loses it |
| VCardCycles.CyclePreserves | packages/platform-carddav/src/dav.ts:237-245 | one update preserves exactly the lines it prints again iff none starts with a blank |
| VCardCycles.CyclesPreserve | packages/platform-carddav/src/dav.ts:237-245 | if no line that the first update prints again starts with a blank, then after any number of updates the unknown lines are the first ones, verbatim and in order, photos iff no update gave photo URLs |
| VCardCycles.CyclesPreserveExactly | packages/platform-carddav/src/dav.ts:237-245 | every prefix of a sequence of updates preserves the lines in this sense iff no line that the first one prints again starts with a blank |
| JsonKey.ReadInvertsQuote | packages/server/src/connection-scope.ts:74-87 | a JSON string is read back from its text, whatever follows it |
| JsonKey.StringifyInjective | packages/server/src/connection-scope.ts:74-87 | distinct lists of strings have distinct JSON texts |
| JsonKey.StringifyClean | packages/server/src/connection-scope.ts:74-87 | whatever the strings, the text has no control character and no unpaired surrogate (ECMA-262, section 25.5.2.3) |
| JsonKey.KeysInjective | packages/util/src/crypto/index.ts:21-43 | neither the resumption key nor the text of the worker identifier is shared by two triples |
| JsonKey.ScopeKeyInjective | packages/server/src/connection-scope.ts:70-72 | the joined key is unambiguous for platform names without a colon |
| JsonKey.ScopeKeyAmbiguous | packages/server/src/connection-scope.ts:70-72 | two pairs with one joined key |
| Scopes.NormalizeTwice | packages/server/src/connection-scope.ts:89-102 | normalising a stored address again changes nothing iff no second mapped prefix or blank is left |
| Scopes.NormalizeExactly | packages/server/src/connection-scope.ts:93-102 | the address kept is the first of the list, without blanks around it and without the mapped prefix |
| Scopes.ScopeRegistry.Resolve | packages/server/src/connection-scope.ts:230-265 | the scope given to a caller, or the error without a session |
| Scopes.ScopeRegistry.Remember | packages/server/src/connection-scope.ts:273-303 | the record is written unless another connected session owns it |
| Scopes.ScopeRegistry.Reassign | packages/server/src/connection-scope.ts:317-336 | the loop over the snapshot has the specified effect |
| Scopes.ScopeRegistry.Forget | packages/server/src/connection-scope.ts:339-345 | deleting while iterating leaves the records of other instances, in order |
| Scopes.OnlySocketsResume | packages/server/src/connection-scope.ts:236-242 | HTTP requests neither inherit a scope nor leave one |
| Scopes.ResolveFrom | packages/server/src/connection-scope.ts:243-265 | a scope is the caller's id unless its own or an abandoned record is found under its key |
| Scopes.ResolveRefused | packages/server/src/connection-scope.ts:258-264 | a caller gets no scope iff it has no session id, an empty socket id hiding the credential's |
| Scopes.RememberExactly | packages/server/src/connection-scope.ts:273-303 | a record is written iff there is a scope and a session and no other session that counts as connected has the key; no other record changes |
| Scopes.RememberThenResolve | packages/server/src/connection-scope.ts:243-303 | what was remembered is resolved next, nothing else changed |
| Scopes.ForgetRemoves | packages/server/src/connection-scope.ts:339-345 | exactly the records of the instance are gone |
| Scopes.RenameMoves | packages/server/src/connection-scope.ts:317-336 | for every key: moved records keep scope, session and address under the new key, old keys are free, the rest is untouched |
| Scopes.RenameLeavesNone | packages/server/src/connection-scope.ts:317-336 | no record is left on the old identifier |
| ScopeRuns.ScopeNowIsResolved | packages/server/src/connection-scope.ts:230-265 | the scope that the run properties speak of is the one the registry resolves in that state |
| ScopeRuns.RecordsExactly | packages/server/src/connection-scope.ts:273-345 | every record after a step: one may be written by a remembering, those of an instance go at its shutdown, nothing else touches any |
| ScopeRuns.SafeStepPrivate | packages/server/src/connection-scope.ts:230-345 | every safe step keeps scopes exclusive and records owned |
| ScopeRuns.AtomicRunsExclusive | packages/server/src/connection-scope.ts:223-303 | with resolve and remember as one step and no renames, no two connected sessions share a scope, in any run |
| ScopeRuns.SafeRunsExclusive | packages/server/src/connection-scope.ts:223-345 | the same for runs with split actions and renames, each safe when it happens |
| ScopeRuns.SafeExactly | packages/server/src/connection-scope.ts:273-336 | from such a state a step is safe iff no atomic continuation ever puts two connected sessions on one scope |
| ScopeRuns.PrivateExactly | packages/server/src/connection-scope.ts:223-345 | in every reachable state: scopes are exclusive and records owned iff no atomic continuation ever puts two connected sessions on one scope |
| ScopeRuns.StaleCommitHappens | packages/server/src/process-manager.ts:53-70 | a reachable state in which remembering late is unsafe |
| ScopeRuns.UnsafeRenameHappens | packages/server/src/platform-instance.ts:567-576 | a state reachable by atomic actions in which a rename is unsafe |
| EnsureChain.OneRunning | packages/server/src/process-manager.ts:102-145 | at most one run per identifier is under way, in every interleaving |
| EnsureChain.RunsInOrder | packages/server/src/process-manager.ts:121-131 | runs begin in call order, each after all earlier ones have settled |
| EnsureChain.TailKept | packages/server/src/process-manager.ts:132-143 | while a call is unfinished the map holds its chain's tail and a new call waits for it |
| EnsureChain.FailureIsInvisible | packages/server/src/process-manager.ts:134-137 | states that differ only in the outcomes of finished runs allow the same steps and stay alike, because both reactions of the parked copy return |
| EnsureChain.NoRunIsSkipped | packages/server/src/process-manager.ts:121-137 | in no interleaving is a call rejected because an earlier one failed |
| EnsureChain.SkippedExactly | packages/server/src/process-manager.ts:132-137 | over every second reaction the parked copy could have: some run skips a call iff that reaction is missing or throws |
| EnsureChain.AlwaysProgress | packages/server/src/process-manager.ts:121-143 | while a call is unfinished some step of the chain is possible |
| EnsureChain.DrainedIsEmpty | packages/server/src/process-manager.ts:132-143 | when nothing is left to do every call has run and the map is empty |
| EnsureChain.StepsAreCounted | packages/server/src/process-manager.ts:121-143 | without new calls every step lowers the number of steps still to come, so the chains drain |
| EnsureChain.ProcessManager.EnsureProcess | packages/server/src/process-manager.ts:109-145 | a call chains behind the tail and becomes the tail |
| EnsureChain.ProcessManager.DropDrained | packages/server/src/process-manager.ts:139-143 | the entry is deleted only while it is still the call's own |
| Workers.PointsInsideExactly | packages/server/src/process-manager.ts:155-195 | a step keeps every record pointing at a serving worker iff it does not reuse one being torn down |
| Workers.RecordsPointInside | packages/server/src/platform-instance.ts:235-291 | in every run without such a reuse every record points at a worker in the map |
| Workers.ReuseDangles | packages/server/src/platform-instance.ts:268-287 | after such a reuse the end of the teardown leaves the record pointing nowhere |
| Workers.ReuseHappens | packages/server/src/process-manager.ts:223-241 | such a reuse can be reached |
| Workers.SingleExactly | packages/server/src/platform-instance.ts:567-576 | a step keeps workers and identifiers one to one iff it renames to a free identifier |
| Workers.NoDuplicateWorkers | packages/server/src/process-manager.ts:102-183 | crashes, replacements and further calls never leave two workers for one identifier |
| Workers.TwinsFollow | packages/server/src/platform-instance.ts:567-576 | after a rename to an identifier that is not free two serving workers answer to it, at the latest when a pending replacement is done |
| Workers.DuplicateHappens | packages/server/src/platform-instance.ts:567-576 | a run of two calls and a rename that leaves two serving workers under one identifier |
| Workers.CapExactly | packages/server/src/process-manager.ts:155-221 | a step keeps the limit, pending replacements counted, iff it takes no further slot or one is really free |
| Workers.LimitKept | packages/server/src/process-manager.ts:155-221 | in every run of such steps the map never holds more workers than the limit |
| Workers.LimitExceeded | packages/server/src/process-manager.ts:155-182 | a step that takes a slot without room leaves the map above the limit once the replacements are done |
| Workers.NoRoomHappens | packages/server/src/process-manager.ts:155-182 | a run that reaches such a creation |
| Workers.SlotlessRenameHappens | packages/server/src/platform-instance.ts:567-576 | a run without any replacement in which a rename exceeds the limit |
| WorkerSteps.WorkersExactly | packages/server/src/process-manager.ts:147-221 | every worker after a step: created iff a free slot is asked for below the limit or a replacement is due, dead iff its process ended, closing iff a teardown began |
| WorkerSteps.SlotsExactly | packages/server/src/process-manager.ts:147-221 | every slot and every pending replacement after a step |
| WorkerSteps.RecordsExactly | packages/server/src/process-manager.ts:186-241 | every scope record after a step: written for a reused or created worker iff its key is not taken, dropped iff the teardown of its worker begins, and begins for the first time |
| Workers.Platforms.EnsureProcessNow | packages/server/src/process-manager.ts:147-195 | reuse, refusal, creation or the start of a replacement |
| Workers.Platforms.Replace | packages/server/src/process-manager.ts:169-194 | the rest of the replacement once the old worker is gone |
| Workers.Platforms.Shutdown | packages/server/src/platform-instance.ts:228-240 | one teardown, forgetting the scopes at its start |
| Workers.Platforms.FinishTeardown | packages/server/src/platform-instance.ts:282-290 | the slot is dropped unless a replacement has taken it over |
| Workers.Platforms.Rename | packages/server/src/platform-instance.ts:567-576 | the worker and its records move to the new identifier |
| ClientRuns.OneFateEach | packages/client/src/sockethub-client.ts:827-932 | in every run each emission is queued, sent or reported, exactly one of these and once |
| ClientRuns.SentInOrder | packages/client/src/sockethub-client.ts:848-884 | emissions leave in emission order over the whole run, the queue is bounded and the sort changes nothing |
| ClientRuns.QueueIsNewest | packages/client/src/sockethub-client.ts:848-862 | the queue always holds the most recent emissions without a gap, so overflow only ever drops the oldest |
| ClientRuns.ReadyIsSettled | packages/client/src/sockethub-client.ts:696-765 | ready implies no cycle, timer, waiter or queued event and stored ready info; an older token changes nothing |
| ClientRuns.WaitersSettledOnce | packages/client/src/sockethub-client.ts:339-367 | each call of ready() is waiting or was settled exactly once |
| ClientSteps.SettledExactly | packages/client/src/sockethub-client.ts:339-367 | how a call of ready() is settled: its own timer times it out, a payload that is taken resolves it with the new ready info or refuses it, a ready client answers at once, and nothing else settles it |
| ClientSteps.ReadyReasonMeans | packages/client/src/sockethub-client.ts:726-765 | over every run: a cycle runs iff no payload was taken since the last connection, and the ready info names the registry in force and first connection, reconnection or update accordingly |
| ClientSteps.InitExactly | packages/client/src/sockethub-client.ts:696-825 | the state of initialisation after every event |
| ClientSteps.TimersExactly | packages/client/src/sockethub-client.ts:673-735 | which timers are armed after every event |
| ClientSteps.EmitExactly | packages/client/src/sockethub-client.ts:827-862 | a ready client sends or reports an emission at once, any other queues it and, when the queue is full, drops and reports the oldest |
| ClientSteps.ComplaintsExactly | packages/client/src/sockethub-client.ts:864-932 | an emission is reported iff it expired, is refused, is rejected or lacks the actor the replay needs, each with its own message |
| ClientRuns.ReplayMapsMean | packages/client/src/sockethub-client.ts:539-553 | of the messages sent so far the maps hold the last join without a later leave and the last connect without a later disconnect, in insertion order |
| ClientReplays.CredentialsMean | packages/client/src/sockethub-client.ts:530-537 | in every run the credentials map holds, of the credentials sent since it was last cleared, the last for each key, in the order the keys were sent first |
| ClientRuns.FoldOrdered | packages/client/src/sockethub-client.ts:545-552 | replay order is the order in which the current presence of each key began |
| ClientRuns.FlushReportsPrefix | packages/client/src/sockethub-client.ts:864-884 | when a payload makes the client ready under a clock that does not go back, a prefix of the queue is reported as expired and the rest is judged by the new registry and sent in order |
| ClientRuns.FlushAllFates | packages/client/src/sockethub-client.ts:873-932 | a flush delivers and reports its entries independently and in order |
| ClientRuns.ReadyReplays | packages/client/src/sockethub-client.ts:737-765 | with a cycle running credentials, connects and joins go out before the unexpired queue |
| ClientReplays.ReplaysEntryByEntry | packages/client/src/sockethub-client.ts:755-762 | then each stored activity goes out exactly once, renormalised and in map order: credentials, connects, joins, before anything queued; without a cycle none |
| ClientRuns.ReplayLostExactly | packages/client/src/sockethub-client.ts:737-752 | a cycle ends short of ready iff a payload lacks the version or a context |
| ClientRuns.SpoiltCycleSkipsReplay | packages/client/src/sockethub-client.ts:737-762 | after that the next good payload makes the client ready without a replay |
| ClientRuns.LostReplayHappens | packages/client/src/sockethub-client.ts:737-765 | a run from the start: a join is stored, the connection drops, and the client is ready again without having rejoined |
| Client.SockethubClient.HandlePublicEmit | packages/client/src/sockethub-client.ts:827-846 | an emission is numbered, then sent or queued |
| Client.SockethubClient.EnqueueOutbound | packages/client/src/sockethub-client.ts:848-862 | overflow drops and reports the oldest event |
| Client.SockethubClient.FlushOutboundQueue | packages/client/src/sockethub-client.ts:864-884 | the loop disposes of the sorted queue entry by entry |
| Client.SockethubClient.SendOutbound | packages/client/src/sockethub-client.ts:886-932 | rejected content and refused event names are reported, accepted content stored for replay and emitted |
| Client.SockethubClient.EventMessage | packages/client/src/sockethub-client.ts:539-553 | joins and connects enter their map, leaves and disconnects leave it, only while connected |
| Client.SockethubClient.EventCredentials | packages/client/src/sockethub-client.ts:530-537 | credentials are stored under their key |
| Client.SockethubClient.MarkReady | packages/client/src/sockethub-client.ts:737-765 | the transition to ready, or to an init error without ready info |
| Client.SockethubClient.SettleReadyWaiters | packages/client/src/sockethub-client.ts:616-636 | every waiter is settled once and the list is empty |
| Client.SockethubClient.StartInitialization | packages/client/src/sockethub-client.ts:696-735 | a new cycle under a new token, or an init error if the request throws |
| Client.SockethubClient.OnInitTimer | packages/client/src/sockethub-client.ts:712-724 | only the timer of the running cycle has an effect |
| Client.SockethubClient.HandleSchemasPayload | packages/client/src/sockethub-client.ts:767-825 | unchanged, repeated, invalid and new registries |
| Client.SockethubClient.AwaitReady | packages/client/src/sockethub-client.ts:339-367 | an answer at once when ready, a waiter otherwise |
| Client.SockethubClient.OnWaiterTimer | packages/client/src/sockethub-client.ts:348-357 | the waiter is removed and rejected |
| Client.SockethubClient.OnConnect | packages/client/src/sockethub-client.ts:942-950 | a connection starts a replaying cycle |
| Client.SockethubClient.OnDisconnect | packages/client/src/sockethub-client.ts:954-961 | idle, without timers, the cycle kept |
| TimeZone.FindBoundary | packages/platform-caldav/src/timezone.ts:92-99 | the binary search ends at a second whose offset differs from the one before it |
| TimeZone.Middle | packages/platform-caldav/src/timezone.ts:94-95 | the midpoint is a whole second strictly between the bounds |
| TimeZone.TransitionsSound | packages/platform-caldav/src/timezone.ts:80-110 | every recorded instant is a real change, and instants strictly increase, whatever the zone does |
| TimeZone.WeekComplete | packages/platform-caldav/src/timezone.ts:89-107 | a week is recorded completely iff it holds at most one change |
| TimeZone.TransitionsComplete | packages/platform-caldav/src/timezone.ts:80-110 | the recorded instants are all changes up to the last sample iff no week holds two |
| TimeZone.TwoChangesMissed | packages/platform-caldav/src/timezone.ts:89-91 | a week with two changes of which none is recorded |
| TimeZone.TransitionsChain | packages/platform-caldav/src/timezone.ts:101-109 | then each entry starts at the offset the previous one ended with |
| TimeZone.CacheKeyInjective | packages/platform-caldav/src/timezone.ts:71-75 | distinct requests have distinct cache keys |
| TimeZone.BlockMeans | packages/platform-caldav/src/timezone.ts:66-110 | for any years asked for, the block holds real changes up to a last sample within a week of the end, a steady one what was seen there, and gives the zone's offset at every second iff no week has two changes |
| TimeZone.YearsExactly | packages/platform-caldav/src/timezone.ts:71-72 | the block covers exactly the years asked for within 1970 to 2100, or the nearest year when there are none |
| TimeZone.YearStartExactly | packages/platform-caldav/src/timezone.ts:77-78 | years start at the epoch and follow each other by 365 or 366 days, by the Gregorian rule |
| TimeZone.CacheExactly | packages/platform-caldav/src/timezone.ts:137-141 | a new block is found, and only the oldest of 256 entries can be gone |
| TimeZone.TimeZones.TimeZoneLines | packages/platform-caldav/src/timezone.ts:66-143 | a hit equals a fresh computation, the cache is bounded and first in first out |
| RedisPurge.EscapedPrefixMatches | packages/data-layer/src/credentials-store.ts:318-340 | an escaped prefix and a star match exactly the keys that start with the prefix |
| RedisPurge.OwnExactly | packages/data-layer/src/queue-id.ts:11-16 | the keys of a server are those that start with its own store name |
| RedisPurge.ReachExactly | packages/data-layer/src/queue-id.ts:11-16 | some key of another server is in reach iff one of the two key prefixes continues the other |
| RedisPurge.OthersAreSafe | packages/data-layer/src/queue-id.ts:11-16 | so with colon-free ids the prefix covers a key iff it is the server's own |
| RedisPurge.ColonExposes | packages/data-layer/src/queue-id.ts:11-16 | a foreign key in reach when an id continues with the store name |
| RedisPurge.PurgeCredentialsStoreKeys | packages/data-layer/src/credentials-store.ts:336-359 | after a full scan no own key is left, nothing else was touched and each deleted key is counted once |
| Dav.QuoteRoundTrip | packages/dav/src/index.ts:167-171 | unquoting a quoted value gives every value back |
| Dav.QuotedEnds | packages/dav/src/index.ts:173-178 | a quoted value ends where it should, whatever follows |
| Dav.RequestBounded | packages/dav/src/index.ts:267-362 | at most eight fetches, all to the service, each repeated only where a redirect or a challenge says, a write only after 307, 308 or a challenge |
| Dav.RequestReturns | packages/dav/src/index.ts:294-361 | a returned response is the last answer and neither a redirect nor a refusal |
| DavOutcome.RequestExactly | packages/dav/src/index.ts:267-362 | a request goes on after every redirect and challenge it can follow, with the fetch that answers it, and after no other answer; the last answer alone decides the result, every error with its own cause |
| DavOutcome.ReturnsExactly | packages/dav/src/index.ts:294-361 | a response is returned iff it is the last answer and neither a redirect nor a refusal |
| DavOutcome.HeaderExactly | packages/dav/src/index.ts:396-436 | in every interleaving a fetch carries the token, or nothing before the first challenge and then what the last one asks for, counting the fetches since |
| Dav.EightFetches | packages/dav/src/index.ts:267-362 | the bound is reached |
| Dav.NonceCounts | packages/dav/src/index.ts:396-436 | under each adopted challenge the client counts 1, 2, 3 without gap or repeat, in every interleaving |
| Dav.RequestCounts | packages/dav/src/index.ts:324-342 | the counts stay right from request to request |
| Dav.ReplayedExactly | packages/dav/src/index.ts:324-342 | a nonce and count are sent together twice iff some nonce was adopted twice, with qop, and used after both adoptions |
| Dav.NeverReplayed | packages/dav/src/index.ts:332-334 | so with distinct nonces they never are |
| Dav.ReofferedNonceReplays | packages/dav/src/index.ts:332-334 | a nonce offered again with qop is sent with count 1 again |
| Dav.DavClient.Send | packages/dav/src/index.ts:274-287 | each fetch carries the header the client's fields call for |
| Dav.DavClient.Request | packages/dav/src/index.ts:267-362 | the recursion over redirects and challenges, with its errors |

## Left out

- ICalObject.BuildICalendar: dates, recurrence rules, attachments and the comparison of start and end enter as given lines with a property name of their own, because they are many similar branches of formatting.
- ICalObject.ParseICalendar: dates, recurrence, attachments and reminders are not read.
- ICalObject.ReadComponent: reads uid, title, text fields, url and people only.
- ICalRoundTrip.CalendarRoundTrip: gives back what `ICalObject.ReadComponent` reads; dates, recurrence and attachments are only shown not to disturb it.
- TimeZone.TimeZones.TimeZoneLines: the text of the VTIMEZONE lines is not modelled; the cache holds offsets and instants.
- Reminders and alarm parsing; `isUpdateSupported`; comparing start and end times: many similar branches without a round trip of their own.
- Zone names: `TimeZone.BlockMeans` speaks of offsets and instants; calendar printing takes the zone's lines as given.
- The rest of the last year after the final weekly sample: the code does not look at it.
- Case mapping outside ASCII: `toUpperCase` and `toLowerCase` are modelled on ASCII letters.
- SHA-256: worker identifiers are compared by the text that is hashed; a digest collision is outside the model.
- Credential fingerprints and the pending-scope promises: only scopes derived from sessions are recorded and reclaimed.
- The map operations of `ScopeRuns` without a socket server: liveness is then assumed for everybody and no scope is ever handed on (`Scopes.ScopeRegistry.Resolve` covers it).
- Job queues, and the mark that makes a replaced worker's teardown leave the shared queue alone: the worker map and the records do not depend on it.
- Process spawning, heartbeats and broadcasting: a crash, the end of a teardown and an exit are steps that may happen at any time.
- XML parsing, header regexes of `parseDigest`, base64 and the digest itself: a response carries its challenge already taken apart.
- `connect_error`, incoming messages and public getters of the client, and the state `closed`, which the code never enters.
- Redis on a cluster, errors of SCAN and DEL, and keys this server writes during its own purge.
- IRC, XMPP, feeds, metadata, HTTP routes, configuration and logging.
