# Feder: the Follow handshake, signed delivery and note fan-out

Feder is an ActivityPub server core written in Rust. This project models how its servers follow one
another over signed HTTP requests, how a note reaches its readers, and the small exact algorithms
underneath, and proves what the code promises about them. `dafny verify dfyconfig.toml` checks everything.

| file | what it models |
|---|---|
| `Vocab.dfy`, `Json.dfy` | the vocabulary's types, their JSON form, the inbox's untyped look-ups |
| `FollowCore.dfy`, `Following.dfy` | the portable decisions about Follow, Accept and Undo; following a remote actor |
| `Store.dfy`, `Ordering.dfy` | the SQLite tables, each statement's meaning, the class that runs them, its sorted listings |
| `Inbox.dfy`, `AcceptId.dfy` | dispatching a verified activity to the store, at an actor's own inbox and at the shared one |
| `Handshake.dfy` | any number of servers as a step machine: handlers split at every storage call, messages lost, repeated and reordered, handlers stopping anywhere |
| `SignatureHeader.dfy`, `Cavage.dfy` | the Signature header's scanning loops, the signature base, signing and verifying (draft-cavage-http-signatures-12, sections 2.1 to 2.3 and 4) |
| `RequestAuth.dfy`, `Http.dfy`, `KeyPublishing.dfy` | preparing a signed delivery, verifying a received one, publishing the key that joins the two |
| `AuthAnswers.dfy`, `InboxAnswers.dfy` | every answer of verification, preparation and the inboxes, told from the request, the documents and the stored rows alone |
| `SignedHandshake.dfy` | a whole handshake over the wire: printed, signed, delivered, parsed, verified and dispatched at an actor's own inbox |
| `Assumptions.dfy` | worlds in which the assumptions of the theorems about signed delivery hold together |
| `NoteDelivery.dfy`, `NoteCreation.dfy` | a note's addresses, recipients and inboxes, and publishing it with continue-on-failure (sections 7.1 and 7.1.3 of ActivityPub) |
| `Negotiation.dfy` | Accept negotiation and quality values (sections 12.4.2 and 12.5.1 of RFC 9110) |
| `KeyProvisioning.dfy` | concurrent provisioning of an actor's key pair |
| `Text.dfy` | string operations: trimming, splitting, case folding |

Where the Rust source changes state, the model does too: `SqliteStore` and `ActorDocument` are classes whose
methods are proved against functions of their old contents, and the scanning and gathering loops are methods
with invariants. What the source promises is then proved about those functions.

Assumptions, all stated as hypotheses of the lemmas that use them:

- RSA, SHA-256 and base64 are functions in a `Crypto` value. Acceptance assumes that the pair works on the one
  text that is signed and that base64 text uses its own alphabet. Authenticity assumes of the one signature a
  request carries that, if it verifies, a recorded signing made it, and that the received body collides with
  no recorded one. `Assumptions.AssumptionsHoldTogether` gives a world with a working key in which both hold
  for the same delivery, and `Assumptions.HandshakeHappens` worlds in which a signed handshake takes place.
- Which strings are IRIs, and how authorities, URIs and dates parse, are functions in a `Platform` value. It
  is assumed that an IRI is not empty and holds no quote, backslash or control character.
- A resolved actor has the identifier asked for (`crates/feder-server/src/actor.rs:107-120`).
- In `Handshake`, a message is a body with the actor whose key verifies it. That only the hosting server
  produces messages of its actors is what `RequestAuth.AcceptedBodyWasSent` shows of signed requests. A
  storage failure is a handler that stops. An actor without a home is not hosted by a Feder server and may
  sign and send anything.

Three things the proofs brought out:

- A signed delivery is accepted exactly when the sender's key identifier is visible ASCII. IRIs may hold other
  characters; the Signature header then cannot be read as text and the delivery is answered with 401
  (`RequestAuth.PreparedDeliveryIsAccepted`).
- In `receive_activity` the `FollowError::WrongActor` branch and the branch for a shared-inbox relationship of
  another Follow cannot be taken (`Inbox.FollowActorIsVerified`, `Inbox.SharedPendingIsTheAcceptedOne`), but
  the corresponding Undo branch can, exactly when the embedded Follow has another actor
  (`Inbox.UndoOfAnotherActorsFollow`).
- An Accept id is the local actor's identifier with a fragment appended: an actor can answer Follows exactly
  when its identifier has no fragment yet (`Inbox.AnswerableWithoutFragment`), and otherwise receiving one ends
  with 500 before anything is stored. `Inbox.FollowIsReceived` and `Inbox.HandshakeCompletes` hold exactly when
  the appended text is an IRI.

## Model

| member | source | states |
|---|---|---|
| Handshake.HandshakeSafety | crates/feder-server/src/inbox.rs:185-299 | in every run, a row accepted with a hosted remote actor was preceded by that actor's own server storing the local actor for a Follow with the row's id, then by its Accept embedding that Follow, then by the confirmation, even if the Follow id was stored again for someone else meanwhile |
| Handshake.ConfirmationIsLinearizable | crates/feder-server/src/storage/sqlite.rs:249-300 | in every run an accepted row was confirmed exactly once, with the relationship that passed the checks, and never changes afterwards |
| Handshake.ConfirmComparesAndSets | crates/feder-server/src/storage/sqlite.rs:282-299 | a confirmation returns true exactly when the row is pending and equal to the checked relationship at that instant, and otherwise changes nothing |
| Handshake.StepKeepsInv | crates/feder-server/src/inbox.rs:159-299 | every step of every handler keeps the invariant that ties stores, running handlers and the network to what was recorded |
| Handshake.StepIsRecorded | crates/feder-server/src/follow.rs:46-64 | a step writes only what its recorded event says, or one relationship stored as pending |
| Handshake.StepIsJustified | crates/feder-server/src/inbox.rs:185-299 | a follower is stored only for a Follow it signed and removed only for an Undo it signed, an Accept is sent only after its sender's server stored the follower, and a confirmation uses an Accept its hosted sender sent |
| Handshake.AcceptedRowsAreStable | crates/feder-server/src/storage/sqlite.rs:249-272 | no step changes an accepted row, and only a confirmation that returns true makes one |
| Handshake.FollowersOverRuns | crates/feder-server/src/storage/sqlite.rs:235-247 | in every run each server lists, sorted and once each, exactly the actors whose last recorded event there is a Follow |
| Handshake.OnlySignersChangeTheirRows | crates/feder-server/src/inbox.rs:232-278 | a follower's row is added or changed only when that follower signed a Follow of the local actor, and removed only when it signed an Undo of one |
| Handshake.UndisturbedReception | crates/feder-server/src/inbox.rs:159-299 | a handler's steps without interference do what receiving the activity does in one piece |
| Handshake.UndisturbedFollow | crates/feder-server/src/follow.rs:46-64 | the steps of following an actor without interference do what the method does |
| FollowCore.DecisionsMatchCreatedFollows | crates/feder-core/src/follow.rs:50-123 | the receiving decisions take exactly the Follows that creating one makes, and an answer embeds the received Follow with the sender's actor |
| Following.FollowActor | crates/feder-server/src/follow.rs:30-67 | the pending relationship is stored, then the key is loaded, then the Follow is sent, with an early return for every failure |
| Following.FollowingDoes | crates/feder-server/src/follow.rs:30-67 | every outcome: nothing until both actors are known; then the relationship is stored, the key loaded and, exactly if there is one, the created Follow sent once to the remote inbox; each error as it is reported |
| Following.IntentIsKept | crates/feder-server/src/follow.rs:25-64 | whatever fails after both actors are known, loading the Follow id yields the relationship unless it was accepted before, and nothing is sent before it is stored |
| Inbox.ReceiveActivity | crates/feder-server/src/inbox.rs:159-299 | status, new tables and sent Accept of one delivery, verification included, for every activity, sender and stored state |
| InboxAnswers.AnswersAreExact | crates/feder-server/src/inbox.rs:159-299 | once the sender is verified the answer is one of 202, 400, 401, 500, 502, each under an exact condition: 401 for an Undo of another actor's Follow or an Accept by an actor the Follow was not sent to, 202 exactly when none of the others applies, so whenever an Accept was sent and got through |
| InboxAnswers.FollowDoes | crates/feder-server/src/inbox.rs:267-299 | what a verified Follow does: tables, answer and Accept, for every key, target and delivery outcome |
| InboxAnswers.UndoDoes | crates/feder-server/src/inbox.rs:232-264 | what a verified Undo does, and when it is refused |
| InboxAnswers.AcceptDoes | crates/feder-server/src/inbox.rs:185-229 | what a verified Accept does, against whatever row is stored |
| InboxAnswers.OthersDoNothing | crates/feder-server/src/inbox.rs:184-266 | anything else changes nothing, and is 400 exactly when it is of a handled kind but malformed |
| InboxAnswers.SenderMeans | crates/feder-server/src/inbox.rs:417-424 | the sender is the actor member, an identifier or an object with one |
| InboxAnswers.TargetMeans | crates/feder-server/src/inbox.rs:426-438 | the target is the object of a Follow, or that of the object of an Undo |
| Inbox.ReceiveAccept | crates/feder-server/src/inbox.rs:203-229 | the pending row is found, checked and confirmed, with the answer for every failure |
| Inbox.SharedInbox | crates/feder-server/src/inbox.rs:91-130 | a shared-inbox delivery does what a delivery to the recipient's own inbox does, once a recipient with a shared inbox is found |
| InboxAnswers.SharedTargetMeans | crates/feder-server/src/inbox.rs:440-469 | an Accept is for the actor of the pending row it names, a Follow or Undo for its target, everything else for no one |
| InboxAnswers.SharedActivitiesFindTheirTarget | crates/feder-server/src/inbox.rs:440-461 | every decoded Follow, and every Undo that embeds one, is for the Follow's target |
| InboxAnswers.SharedRecipientMeans | crates/feder-server/src/inbox.rs:91-120 | the recipient is exactly the target that is a local actor with a shared inbox; 202 for nobody and 500 for a failed look-up |
| InboxAnswers.SharedFollowReachesItsTarget | crates/feder-server/src/inbox.rs:91-120 | a created Follow of a local actor, and an Undo of it, reach that actor through the shared inbox |
| Inbox.SharedDeliveryIsPersonal | crates/feder-server/src/inbox.rs:440-461 | the relationship loaded to find the recipient changes nothing about the outcome |
| Inbox.FollowActorIsVerified | crates/feder-server/src/inbox.rs:417-424 | a verified Follow is never refused for its actor |
| Inbox.SharedPendingIsTheAcceptedOne | crates/feder-server/src/inbox.rs:440-469 | the relationship loaded by the shared inbox is the one the Accept names |
| Inbox.UndoOfAnotherActorsFollow | crates/feder-core/src/undo.rs:30-53 | an Undo is unauthorized exactly when its embedded Follow has another actor |
| Inbox.OnlyOwnRowsChange | crates/feder-server/src/inbox.rs:185-299 | a delivery verified as one actor changes at most that actor's follower row, and at most accepts pending rows between the two actors |
| Inbox.AnswersTellWhatHappened | crates/feder-server/src/inbox.rs:159-299 | over a whole delivery: 400 and 401 change nothing; 400 exactly for what does not decode; 502 exactly when verification could not fetch, or the follower was stored and the Accept did not go through; 500 exactly when verification failed so, the Follow cannot be answered, or the stored row cannot be read |
| Inbox.SentOnlyAfterStoring | crates/feder-server/src/inbox.rs:267-299 | an Accept is handed to the sender only with the follower stored, embeds the decoded Follow, and goes to the follower's inbox |
| Inbox.FollowIsReceived | crates/feder-core/src/follow.rs:98-123 | the Follow one server creates, encoded and decoded, is taken by the other exactly when an Accept can be named |
| Inbox.AnswerableWithoutFragment | crates/feder-server/src/inbox.rs:407-415 | an Accept can be named exactly when the local actor's identifier has no fragment |
| Inbox.AnswerIsReceived | crates/feder-core/src/follow.rs:70-96 | the Accept that answers it passes the check against any stored relationship that awaits it |
| Inbox.HandshakeCompletes | crates/feder-server/src/storage/sqlite.rs:282-299 | the created Follow stores its actor and is answered if the answer can be named and signed; the answer turns the pending row into an accepted one at either inbox, unless the row was replaced |
| Inbox.UndoIsReceived | crates/feder-core/src/undo.rs:30-53 | an Undo embedding that Follow removes the follower |
| Store.SqliteStore.OpenInMemory | crates/feder-server/src/storage/sqlite.rs:58-64 | all tables are empty |
| Store.SqliteStore.StoreFollower | crates/feder-server/src/storage/sqlite.rs:191-217 | inserts the follower's row or replaces its inboxes, and nothing else |
| Store.SqliteStore.RemoveFollower | crates/feder-server/src/storage/sqlite.rs:224-233 | removes exactly that row |
| Store.SqliteStore.ListFollowers | crates/feder-server/src/storage/sqlite.rs:235-247 | the row-by-row reading loop yields the followers of exactly the stored rows, strictly increasing, or an error naming a stored text that is no IRI |
| Store.SqliteStore.ListFollowerDeliveryTargets | crates/feder-server/src/storage/sqlite.rs:344-374 | the row-by-row reading loop yields targets in strictly increasing order, each with the inboxes of its actor's row, or the first error |
| Store.SqliteStore.StorePendingFollow | crates/feder-server/src/storage/sqlite.rs:249-272 | inserts or replaces a pending row and leaves an accepted one alone |
| Store.SqliteStore.ConfirmPendingFollow | crates/feder-server/src/storage/sqlite.rs:282-299 | compares the stored relationship with the expected one and then accepts the row |
| Store.SqliteStore.InsertActorKeyPair | crates/feder-server/src/storage/sqlite.rs:66-83 | inserts a pair, or fails and changes nothing if there is one |
| Store.SqliteStore.LoadOrInsertActorKeyPair | crates/feder-server/src/storage/sqlite.rs:99-130 | keeps an identity that exists or that others insert while the pair is generated, and otherwise stores the generated one |
| Store.SqliteStore.StoreNote | crates/feder-server/src/storage/sqlite.rs:303-316 | stores the encoded note under its identifier |
| Store.LoadAfterStore | crates/feder-server/src/storage/sqlite.rs:249-280 | a stored relationship is loaded back unchanged unless its row was accepted before |
| Store.ConfirmOnce | crates/feder-server/src/storage/sqlite.rs:282-299 | confirming succeeds exactly on an equal pending row, and can never succeed twice for one identifier |
| Store.LoadNoteAfterStore | crates/feder-server/src/storage/sqlite.rs:303-340 | a stored note is loaded back with its public aliases replaced |
| Store.LoadedNoteMeans | crates/feder-server/src/storage/sqlite.rs:318-340 | loading a note: nothing, an error naming another type, an error for an unreadable note, or the note, each exactly |
| Store.ParseTargetMeans | crates/feder-server/src/storage/sqlite.rs:366-373 | a row that cannot be read is reported by its first text that is no IRI |
| Store.ProvisionedOnce | crates/feder-server/src/storage/sqlite.rs:66-130 | a provisioned pair is stored and every existing row kept, so provisioning again returns the same pair whatever is generated or inserted |
| Store.ReplayIsLastEvent | crates/feder-server/src/storage/sqlite.rs:191-233 | after any history a row is there exactly when the pair's last event is a Follow, with that Follow's inboxes |
| Store.ListAfterReplay | crates/feder-server/src/storage/sqlite.rs:235-247 | after any history the listing is sorted, has no duplicates and holds exactly those actors |
| Store.TargetsAfterReplay | crates/feder-server/src/storage/sqlite.rs:344-374 | after any history the delivery targets are the same actors in the same order with the inboxes of their latest Follow |
| Ordering.SortedLists | crates/feder-server/src/storage/sqlite.rs:235-247 | the ordered listing of a set holds exactly its elements, strictly increasing |
| Ordering.SortedIsUnique | crates/feder-server/src/storage/sqlite.rs:352-357 | no other list does |
| Ordering.LexMeans | crates/feder-server/src/storage/sqlite.rs:238-243 | the order of the listings: prefixes first, then by the first character that differs |
| SignatureHeader.ParseQuotedParameter | crates/feder-server/src/inbox.rs:624-643 | the scanning loop computes the recursive reading of a quoted string |
| SignatureHeader.QuotedLanguage | crates/feder-server/src/inbox.rs:624-643 | exactly the quoted writings are accepted, with their meaning and the untouched rest; escaped controls are literal, bare ones refused |
| SignatureHeader.ParseInvertsQuote | crates/feder-server/src/inbox.rs:624-643 | reading inverts quoting for every value and every rest |
| SignatureHeader.ParseSignatureHeader | crates/feder-server/src/inbox.rs:574-622 | the parameter loop terminates and computes the recursive reading of a header |
| SignatureHeader.ParameterLanguage | crates/feder-server/src/inbox.rs:577-601 | the parameters read are exactly those that some writing of the header denotes, a trailing comma allowed |
| SignatureHeader.WrittenHeaderIsParsed | crates/feder-server/src/inbox.rs:577-601 | every valid writing is read as what it denotes |
| SignatureHeader.AcceptedLanguage | crates/feder-server/src/inbox.rs:574-622 | a header is accepted exactly when its names differ regardless of case and keyId, headers and signature have content |
| SignatureHeader.ParsedMeans | crates/feder-server/src/inbox.rs:603-621 | an accepted header yields these parameters' values, with algorithm and covered names in lower case |
| SignatureHeader.OnlyThePairsMatter | crates/feder-server/src/inbox.rs:574-622 | the result does not depend on order, name case, blanks, escapes or a trailing comma |
| Cavage.DraftCavageSignatureBase | crates/feder-core/src/key.rs:183-199 | the loop builds the joined lines of the signature base |
| Cavage.SignatureBaseLines | crates/feder-core/src/key.rs:183-199 | the lines of the base: the request target with the method in lower case, then each lowercased name with its trimmed value |
| Cavage.SignatureBaseInjective | crates/feder-core/src/key.rs:183-199 | equal bases come from equal lowercased methods and names, equal targets and equal trimmed values |
| Cavage.PrintedHeaderIsParsed | crates/feder-core/src/key.rs:133-155 | the printed header is read back: key id, rsa-sha256, the request target and lowercased names in order, signature |
| RequestAuth.CollectSignedHeaders | crates/feder-server/src/inbox.rs:336-355 | the loop succeeds exactly when every covered name occurs once, and yields names with values and the set of names |
| RequestAuth.VerifySignedRequest | crates/feder-server/src/inbox.rs:315-393 | the checks in order, each with its answer |
| AuthAnswers.VerificationAnswers | crates/feder-server/src/inbox.rs:315-405 | for every signed request: accepted exactly when all checks pass and the key the header names belongs to the actor, made the signature and is the one the actor's document advertises; 500 exactly for an unusable inbox, 502 exactly for a key or actor that cannot be fetched, otherwise 401 |
| AuthAnswers.UnsignedIsRefused | crates/feder-server/src/inbox.rs:321-334 | without a readable, well-formed Signature header of a known algorithm that covers the request target first, the answer is 401 |
| AuthAnswers.CoverableMeans | crates/feder-server/src/inbox.rs:336-355 | the covered names are in order exactly when each is ordinary, distinct and occurs once, and host, date and digest are among them |
| AuthAnswers.HostAnswers | crates/feder-server/src/inbox.rs:478-522 | the host check passes exactly for the inbox's host in any letter case and its port, defaults included; 500 exactly when the inbox has no usable authority, otherwise 401 |
| AuthAnswers.FreshMeans | crates/feder-server/src/inbox.rs:524-541 | a date passes exactly from sixty-five minutes ago to one hour ahead |
| AuthAnswers.DigestMeans | crates/feder-server/src/inbox.rs:543-565 | a digest passes exactly when some entry is the body's SHA-256 under that algorithm's name in any letter case |
| RequestAuth.PrepareDelivery | crates/feder-server/src/send.rs:57-116 | key choice, host, target, headers and signature, with every early error |
| AuthAnswers.PreparationAnswers | crates/feder-server/src/send.rs:57-118 | each reason not to send, exactly and in order, a private host included; otherwise the target, the five headers and the body that are sent, and what is signed |
| RequestAuth.PreparedDeliveryIsAccepted | crates/feder-server/src/send.rs:57-116 | a prepared delivery that arrives unchanged, in time, at the same endpoint up to host case and default port, is accepted as its sender's exactly when the key id is visible ASCII |
| RequestAuth.AccentedKeyIdIsRefused | crates/feder-server/src/inbox.rs:321-326 | a delivery prepared under a key id with an accented letter is refused although it is correctly signed and arrives unchanged |
| RequestAuth.AcceptedWasSigned | crates/feder-server/src/inbox.rs:335-405 | an accepted request was signed with the very key the header names and its actor's document advertises: same method and target, and every header the Signature header lists with the request's value; host, date and digest covered once, for this host, in the clock window and of this body |
| RequestAuth.AcceptedBodyWasSent | crates/feder-core/src/key.rs:123-127 | if that key signs only prepared deliveries, the accepted body is a body it sent |
| RequestAuth.HostIsAccepted | crates/feder-server/src/inbox.rs:478-522 | the sent Host header passes at an inbox whose host differs in letter case and whose port in being an omitted default |
| RequestAuth.OwnDigestMatches | crates/feder-server/src/inbox.rs:543-565 | the digest header made for a body is matched by that body |
| RequestAuth.OneDigestMeansOneHash | crates/feder-server/src/inbox.rs:543-565 | a digest header value made for one body is matched only by bodies with the same hash |
| RequestAuth.PreparedDeliveryIsGenuine | crates/feder-server/src/send.rs:103-116 | a prepared delivery whose signing is recorded meets the assumption of the authenticity theorems |
| Assumptions.AssumptionsHoldTogether | crates/feder-core/src/key.rs:133-181 | there is a world with a working key in which one and the same delivery is accepted and its body traced to the signing |
| Assumptions.HandshakeHappens | crates/feder-server/src/follow.rs:30-67 | in every such world a signed handshake ends with the follower listed and the row accepted |
| SignedHandshake.ServeInbox | crates/feder-server/src/inbox.rs:68-157 | an actor's own inbox: the actor is looked up, the content type checked, the body parsed and the activity handled, each failure with its answer |
| SignedHandshake.InboxAnswers | crates/feder-server/src/inbox.rs:68-157 | 500, 404, 415 and 400 before verification, each exactly and changing nothing, and then verification's answer or the reception |
| SignedHandshake.DeliveryIsServed | crates/feder-server/src/inbox.rs:68-157 | a delivery prepared for an activity of its sender is handled as that sender's, exactly when its key id can be read |
| SignedHandshake.SignedFollowIsAnswered | crates/feder-server/src/inbox.rs:267-299 | the signed Follow stores its sender exactly when the key id can be read and an Accept named, and is answered exactly when there is a key too |
| SignedHandshake.SignedAnswerConfirms | crates/feder-server/src/inbox.rs:185-229 | the signed Accept turns the awaited row accepted exactly when its key id can be read |
| SignedHandshake.SignedHandshakeCompletes | crates/feder-server/src/follow.rs:30-67 | following, delivering the signed Follow, answering and delivering the signed Accept stores the follower and accepts the row, exactly when both key ids can be read |
| KeyPublishing.ActorDocument.constructor | crates/feder-vocab/src/lib.rs:284-302 | the document starts as the actor |
| KeyPublishing.ActorDocument.Include | crates/feder-vocab/src/lib.rs:224-233 | adds a context at the end unless it is there |
| KeyPublishing.ActorDocument.SetPublicKey | crates/feder-vocab/src/lib.rs:330-344 | sets the key and makes sure of the security context |
| KeyPublishing.SettingKeysReplacesThem | crates/feder-vocab/src/lib.rs:224-344 | contexts keep their places, the security context occurs, and the last key set is the one published |
| KeyPublishing.PublishedKeyIsResolved | crates/feder-server/src/actor.rs:107-140 | a key set and served as JSON, embedded or on its own, is the key deliveries are signed under and the key a remote server resolves |
| KeyPublishing.ResolvedIsAskedFor | crates/feder-server/src/actor.rs:107-140 | whatever a document holds, a resolved actor or key is the one asked for |
| Json.KeyRoundTrip | crates/feder-vocab/src/lib.rs:259-268 | decoding an encoded key gives it back, and fails exactly on text that is no IRI |
| Json.ActorRoundTrip | crates/feder-vocab/src/lib.rs:283-302 | the same for actors |
| Json.FollowRoundTrip | crates/feder-vocab/src/lib.rs:402-411 | the same for Follow |
| Json.AcceptRoundTrip | crates/feder-vocab/src/lib.rs:431-440 | the same for Accept |
| Json.UndoRoundTrip | crates/feder-vocab/src/lib.rs:460-469 | the same for Undo |
| Json.NoteRoundTrip | crates/feder-vocab/src/lib.rs:348-377 | decoding an encoded note replaces the public aliases in to and cc and changes nothing else |
| Json.CreateRoundTrip | crates/feder-vocab/src/lib.rs:489-510 | the same for Create, its note included |
| Json.NormalisationIsIdempotent | crates/feder-vocab/src/lib.rs:163-186 | replacing aliases twice is replacing them once, and it is the identity exactly when there is none |
| Json.AliasesMean | crates/feder-vocab/src/lib.rs:163-186 | exactly the two short names of the public collection are replaced |
| Json.OneAddressIsAList | crates/feder-vocab/src/lib.rs:122-186 | one address may be written alone or as a list; a missing list is empty and null is refused |
| Json.NullIsMissing | crates/feder-vocab/src/lib.rs:284-302 | an optional member that is null is as good as missing |
| Json.DecodedTypes | crates/feder-vocab/src/lib.rs:188-203 | nothing decodes as a type it does not name |
| Json.KeyTypeMayBeMissing | crates/feder-vocab/src/lib.rs:259-268 | the type of a key may be missing but not be another |
| Json.PeeksAgreeWithDecoding | crates/feder-server/src/inbox.rs:417-469 | the untyped look-ups name the ids the decoded activity names |
| AcceptId.DecodeInvertsEncode | crates/feder-server/src/inbox.rs:407-415 | percent-decoding inverts percent-encoding of every text (section 2.1 of RFC 3986) |
| AcceptId.EncodedAlphabet | crates/feder-server/src/inbox.rs:408-411 | the encoded text holds only alphanumerics and percent signs |
| AcceptId.AlphanumericsAreKept | crates/feder-server/src/inbox.rs:408-411 | letters and digits are not encoded |
| AcceptId.EncodedByteIsUpperHex | crates/feder-server/src/inbox.rs:408-411 | an encoded byte is a percent sign and two upper-case hexadecimal digits |
| AcceptId.LastSlash | crates/feder-server/src/inbox.rs:412-414 | the last slash splits an Accept id into its two parts |
| AcceptId.AcceptIdsAreInjective | crates/feder-server/src/inbox.rs:407-415 | different pairs of local actor and Follow have different Accept ids |
| NoteDelivery.NoteRecipients | crates/feder-core/src/note.rs:89-107 | the loop yields the addressed recipients without repetition, in the order of first occurrence |
| NoteDelivery.RecipientsAreExact | crates/feder-core/src/note.rs:89-107 | the followers if their collection is addressed, and every other addressed actor that is neither public nor the author |
| NoteDelivery.CreateNoteOutcomeFor | crates/feder-core/src/note.rs:57-79 | the note, the Create that embeds it with the same addresses, and the recipients |
| NoteDelivery.DistinctKeepsOrder | crates/feder-core/src/note.rs:101-103 | dropping repetitions keeps the order of first occurrence |
| NoteDelivery.AddTargets | crates/feder-server/src/note.rs:102-111 | the inner loop adds each chosen inbox once and covers every listed actor |
| NoteDelivery.AddFollowers | crates/feder-server/src/note.rs:98-112 | the first pass, or the first storage failure |
| NoteDelivery.AddActors | crates/feder-server/src/note.rs:114-133 | the second pass: inboxes, first failure and whom it asked about |
| NoteDelivery.ResolveNoteRecipients | crates/feder-server/src/note.rs:89-136 | both passes together |
| NoteDelivery.FanOutIsExact | crates/feder-server/src/note.rs:89-136 | no duplicates, follower inboxes first in stored order with shared ones preferred, then uncovered actors that resolve, and nothing else |
| NoteDelivery.OnlyUncoveredAreResolved | crates/feder-server/src/note.rs:114-133 | exactly the uncovered actors are asked about, once each, and the earliest failure is the one reported |
| NoteDelivery.ReachedActorsAreNotAskedAgain | crates/feder-server/src/note.rs:118-123 | for any recipients and any resolver, an actor once reached under its own id is not asked about again |
| NoteCreation.CreateNote | crates/feder-server/src/note.rs:36-87 | result and visible effects, in order, for every pattern of failures |
| NoteCreation.SendAll | crates/feder-server/src/note.rs:68-78 | the loop attempts every inbox in order and keeps the first error |
| NoteCreation.SentActivityIsCreated | crates/feder-server/src/note.rs:68-78 | every inbox is sent the created activity, with the requested id and addresses, the author and the stored note |
| NoteCreation.StepsAreExact | crates/feder-server/src/note.rs:46-78 | everything that happens once the inboxes are known, step by step |
| NoteCreation.ReportedErrorIsTheFirst | crates/feder-server/src/note.rs:41-86 | the error of a failed run is what stopped it, else the first failed send, else the earliest failed look-up |
| NoteCreation.NoteIsStoredFirst | crates/feder-server/src/note.rs:46-67 | the note is stored before anything else, and every send comes after the author's key was loaded |
| NoteCreation.StoredNoteIsDelivered | crates/feder-core/src/note.rs:57-79 | the stored note and the note inside the sent Create are read back as the same note, by the local actor and with everything that was requested |
| NoteCreation.EveryInboxIsAttemptedOnce | crates/feder-server/src/note.rs:68-78 | once the key loads every inbox is attempted exactly once, in order, whatever fails |
| NoteCreation.SuccessMeansNothingFailed | crates/feder-server/src/note.rs:56-86 | success exactly when nothing failed, and a send error outranks a resolution error |
| NoteCreation.EveryAddressIsCovered | crates/feder-server/src/note.rs:89-136 | every address that stands for somebody else has an attempted inbox, or the run fails and its actor did not resolve |
| NoteCreation.FollowersAreReached | crates/feder-server/src/storage/sqlite.rs:344-374 | a note to the followers includes the inbox of each follower's latest Follow |
| Negotiation.QualityLanguage | crates/feder-server/src/negotiation.rs:89-104 | exactly the quality values of RFC 9110 are accepted, the result is a thousand times their number and at most 1000, without 16-bit overflow |
| Negotiation.ParseInvertsPrint | crates/feder-server/src/negotiation.rs:89-104 | parsing inverts decimal printing of every value with any sufficient number of decimals |
| Negotiation.PreferredIsUniqueBest | crates/feder-server/src/negotiation.rs:68-87 | the fold yields the unique candidate preferred to all others |
| Negotiation.NegotiationRefinesSort | crates/feder-server/src/negotiation.rs:38-66 | ActivityPub is chosen exactly when it comes first among the named types in the stable descending-quality sort |
| Negotiation.FoldAgreesWithSort | crates/feder-server/src/negotiation.rs:38-87 | the same for any list that is such a sort |
| Negotiation.RankedMeans | crates/feder-server/src/negotiation.rs:39-56 | exactly the ranges of positive quality take part, with 1000 for a range without q |
| Negotiation.NamingMeans | crates/feder-server/src/negotiation.rs:19-24 | which media types count as ActivityPub and which as HTML |
| KeyProvisioning.ProvisionersAgree | crates/feder-server/src/storage/sqlite.rs:85-130 | in every run all successful calls for an actor return the same pair, the stored row, and none ends with the provisioning error |
| KeyProvisioning.IdentitiesAreNeverReplaced | crates/feder-server/src/storage/sqlite.rs:111-129 | in every run a row once written never changes |
| KeyProvisioning.StepKeepsInv | crates/feder-server/src/storage/sqlite.rs:99-130 | every step, strict inserts included, keeps returned pairs equal to stored ones |
| KeyProvisioning.LoserGetsWinnersPair | crates/feder-server/src/storage/sqlite.rs:125-129 | a call that lost the race returns the pair that won |
| KeyProvisioning.InterruptedCall | crates/feder-server/src/storage/sqlite.rs:99-130 | the steps of one call, with other inserts while the pair is generated, do what the store's method does |

## Left out

- JSON text: values are modelled; printing and parsing are a pair of functions that are inverse on the activities sent. A struct written as an array and a type name written as a map, which serde also accepts, are not.
- IRI, URL, authority, media-type and HTTP-date parsing, RSA, SHA-256, base64 and PEM are parameters with stated hypotheses.
- HTTP plumbing: routing, response bodies, timeouts and redirects.
- `AllowUnsignedInsecureDev`, in which authenticity is not claimed.
- SQL errors, locks, file permissions, the schema, and the PEM validation when a key pair is loaded, which every pair this store wrote passes again; text is ordered by scalar value, which is the byte order of its UTF-8 form.
- The address blocklist, WebFinger, the actor, followers and object endpoints and the example server, which would only add easy members.
- While a note is created the answers of the store are parameters, so that other handlers may change it in between; `NoteCreation.FollowersAreReached` and `NoteCreation.StoredNoteIsDelivered` join them to the tables.
- One process inserts a key pair and reads it again under one lock; the model makes these separate steps, which covers several processes on one database too.
- Nothing is claimed about what a remote actor did that no Feder server hosts; it may sign and send anything.
- RequestAuth.PreparedDeliveryIsAccepted: an inbox whose authority has user information or a colon without a port is refused by the source and excluded by `SameEndpoint`.
- Header values are text of visible characters or unreadable; the raw bytes of an unreadable value are not modelled.
- `is_public_note`, `OrderedCollection`, error texts and redaction, which would only add easy members.
