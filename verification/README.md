# Verified model of the messaging SDK and its server

This project models the parts of an end-to-end encrypted messaging system where
correctness is hardest to see in the code, and proves what they promise over every run.

* **The Double Ratchet** (`Ratchet`, `Epochs`, `Party`, `Delivery`, `Theorems`). Cryptography
  is a free algebra of terms (`Terms`): a Diffie-Hellman secret is an unordered pair of private
  keys, the key derivations are constructors, and a ciphertext opens under its own key and
  nothing else. Two parties and a network that reorders, drops, duplicates, reflects and injects
  form one state machine. The main theorem is a refinement: its events are those of two plain
  mailboxes (`Mailbox`) that know no cryptography. The all-zero initial chain keys of the code
  are the explicit term `Zero`, so messages the responder sends before it has received anything
  are covered. The skip bound of 2000 is on the whole store, as in the code.
* **Around the ratchet** (`Encoding`, `Persistence`, `WireFormat`, `Conversation`, `Overlap`,
  `Exchange`, `Interleaving`, `X3dh`, `Prekeys`, `SenderKey`). base64url, sessions stored as text, the
  save-before-send order with crashes and with overlapping calls, what two users are shown end to
  end, the X3DH agreement, prekey ids, and the group sender-key chain.
* **The server** (`PrekeyPool`, `Sequencing`, `RefreshTokens`, `TenantRegistry`). The transactions
  of the key server and of message storage are interleaved statement by statement, with locks,
  waits and aborts. Token and tenant handlers run one at a time, with a failure allowed at each
  step.

Code that updates state in place is a class or a method with loops, proved equal to a function
of the old state; the theorems are about those functions.

Some properties do not hold as one would first state them. The model keeps the code as it is
and states when they hold:

* A ciphertext not made from a conversation's secret is refused under every header, unless its key
  is of the all-zero chain, which anyone can compute. Such a ciphertext is accepted exactly by a
  responder that has received nothing, under the all-zero header key, and by an initiator under
  the responder's first key as long as that chain is current or its number stored
  (`Theorems.ZeroChainExact`, with inputs in `Theorems.ZeroChainInputs`). In the same state a
  responder takes its own message back (`Theorems.ReflectExact`), and two conversations share a
  key (`Conversation.KeysAcross`).
* However sends and receipts of a conversation overlap, two sealed messages share a key exactly when
  they carry the same ratchet key and number, so no key seals two messages exactly when no send
  works on a session whose place in the chain was used before (`Overlap.KeysExact`,
  `Overlap.KeysDistinctExactly`). It is enough that nothing is saved between the load and the save
  of a call; a send that saves there breaks it (`Overlap.OverlapInput`), and so does a receipt,
  which puts the sending chain back (`Overlap.ReceiptInput`).
* A user is shown a text at most once as long as every call finishes while the session it loaded
  is still stored (`Interleaving.InterleavedShows`); a send that overlaps a receipt can make the
  same message be shown twice (`Interleaving.ShownTwice`).
* The cached prekey counters, and the counts that replenishments are about to write, stay right
  exactly as long as no commit on a pool falls between the count and the write of a replenishment
  of it (`PrekeyPool.ExactExactly`). A replenishment leaves its counter off by exactly what was
  fetched and added in between (`PrekeyPool.CounterDrift`).
* Users, and those registrations that have passed the check, stay within five devices exactly as
  long as no registration takes the last place while another one has passed the check
  (`PrekeyPool.LimitExactly`). A registration leaves exactly the devices it counted, those that
  joined since, and its own (`PrekeyPool.DevicesAfter`). With one transaction at a time neither
  fails (`PrekeyPool.SerialExact`).
* A published prekey has its private key on the device exactly when no replenishment stopped
  between publishing and saving (`Prekeys.PrekeysMatch`).
* The key material given to group members holds whatever private signing key the session holds, so
  members write in the sender's name exactly when it is the sender's (`SenderKey.MemberWritesAsSender`).
* The registry stays sound exactly when no handler stops between the table and the registry
  with the old entry still served (`TenantRegistry.SoundExactly`), and complete exactly when no
  row is added, moved or left out behind its back (`TenantRegistry.CompleteExactly`).
* Both ends of X3DH agree exactly when the bundle describes the responder's present keys: the
  signed-prekey id in the header is sent but never looked at (`X3dh.AgreementExact`).

Where code and comments disagree the model follows the code. A page limit of 0 gives one message,
not 50 (`crates/messaging/src/lib.rs:435-437`). A page without `before_seq` starts at the oldest
message, not the most recent. Running over the skip bound throws; no old key is evicted.

`dafny verify dfyconfig.toml` checks the whole project with Dafny 4.11.

## Model

| member | source | states |
|---|---|---|
| Encoding.Base64urlEncode | web_sdk/src/utils/encoding.ts:8-17 | the character loop and the replacements give the url-alphabet digits without padding |
| Encoding.Base64urlDecode | web_sdk/src/utils/encoding.ts:24-35 | padding, `atob` and the array loop give the decoded bytes, or the error for text that is not base64 |
| Encoding.EncodeSpells | web_sdk/src/utils/encoding.ts:8-17 | an encoding is the sextets of the bytes, each in the url alphabet of section 5 of RFC 4648 |
| Encoding.SextetsAreBits | web_sdk/src/utils/encoding.ts:8-17 | the sextets are the bits of the bytes in order, the last group filled up with zeros |
| Encoding.EncodeShape | web_sdk/src/utils/encoding.ts:8-17 | no encoding holds `+`, `/`, `=` or `:`, and its length mod 4 is never 1 |
| Encoding.PadRestores | web_sdk/src/utils/encoding.ts:24-28 | on an encoding the padding loop adds at most two characters and restores what `btoa` gave |
| Encoding.RoundTrip | web_sdk/src/utils/encoding.ts:8-35 | decoding undoes encoding for byte strings of every length |
| Encoding.EncodeInjective | web_sdk/src/utils/encoding.ts:8-17 | two byte strings with the same encoding are equal |
| Ratchet.SkipMessageKeysLoop | web_sdk/src/crypto/ratchet-engine.ts:228-252 | the loop stores a key per skipped message and advances the chain, or refuses when the whole store would pass 2000 |
| Ratchet.AlignChain | web_sdk/src/crypto/ratchet-engine.ts:136-147 | whichever branch is taken, the chain reached is the one of the header's key advanced to the header's number |
| Epochs.RootsGrow | web_sdk/src/crypto/ratchet-engine.ts:254-285 | root terms get strictly deeper with every ratchet step, so no old root comes back |
| Epochs.MsgKeyInjective | web_sdk/src/crypto/ratchet-engine.ts:220-226 | a message key determines its epoch and its number in the chain |
| Epochs.AllSlotsDistinct | web_sdk/src/crypto/ratchet-engine.ts:246 | no two messages of a party share a name in the store of skipped keys |
| Epochs.MsgKeyOrigin | web_sdk/src/crypto/ratchet-engine.ts:212-226 | every message key comes from the shared secret or is of the all-zero chain of the responder's first epoch |
| Mailbox.GapCounts | web_sdk/src/crypto/ratchet-engine.ts:235 | the mailbox's gap is the number of earlier messages still missing |
| Party.SkipExact | web_sdk/src/crypto/ratchet-engine.ts:228-252 | skipping over peer messages is refused exactly when more than 2000 would be missing, and otherwise the store holds exactly the missing ones |
| Party.RatchetOpensEpoch | web_sdk/src/crypto/ratchet-engine.ts:254-285 | a ratchet step makes the receiver share the peer's chain and opens the next epoch with a chain the peer can derive |
| Party.CloseChain | web_sdk/src/crypto/ratchet-engine.ts:139-145 | skipping to `pn` on a new ratchet key keeps a key for every undelivered message of the old chain |
| Party.OpenChain | web_sdk/src/crypto/ratchet-engine.ts:142-147 | after the ratchet step, skipping to `n` reaches exactly the message, or is refused by the bound |
| Party.Receive | web_sdk/src/crypto/ratchet-engine.ts:110-162 | a peer message opens to its text exactly when it is undelivered and within the bound, and the party stays in step |
| Party.OwnDecides | web_sdk/src/crypto/ratchet-engine.ts:110-162 | a party opens a message of its own, under any header, exactly if it is a responder that has received nothing and the header names the all-zero key and the message's number |
| Party.SpentRejected | web_sdk/src/crypto/ratchet-engine.ts:115-162 | a message delivered before opens under no header whatever |
| Party.OutsideRejected | web_sdk/src/crypto/ratchet-engine.ts:110-162 | a ciphertext made neither from the shared secret nor under the all-zero chain, such as one of another conversation, opens under no header |
| Party.ZeroDecides | web_sdk/src/crypto/ratchet-engine.ts:110-162 | a session opens a key of the all-zero chain exactly when it still listens to that chain or has stored that number of it |
| Delivery.StartInv | web_sdk/src/crypto/ratchet-engine.ts:29-77 | the two initialisers give sessions that are in step, zero chains included |
| Delivery.SendInv | web_sdk/src/crypto/ratchet-engine.ts:82-105 | a send of either side keeps both parties in step |
| Delivery.DeliverInv | web_sdk/src/crypto/ratchet-engine.ts:110-162 | a delivery to either side goes as the mailbox says and keeps both parties in step |
| Delivery.RunRefines | web_sdk/src/crypto/ratchet-engine.ts:82-162 | every run of any length shows the events of the mailboxes and ends in step |
| Theorems.MailboxRefinement | web_sdk/src/crypto/ratchet-engine.ts:29-162 | from the initialisers on, any mix of sends, deliveries, duplicates, losses, reflections, ciphertexts of other secrets, and ciphertexts of the all-zero chain that no session opens, shows the events of two plain mailboxes |
| Theorems.DeliveryExact | web_sdk/src/crypto/ratchet-engine.ts:110-162 | after any run a peer message returns exactly its text if undelivered and at most 2000 earlier ones are missing, and is refused in every other case |
| Theorems.EpochLockstep | web_sdk/src/crypto/ratchet-engine.ts:254-285 | after any run exactly one party is one ratchet step ahead, and roots and chains agree as terms across that step |
| Theorems.StoreExact | web_sdk/src/crypto/ratchet-engine.ts:228-252 | after any run the store holds one entry with the right key for each overtaken undelivered message, nothing else, and at most 2000 |
| Theorems.NoiseTolerated | web_sdk/src/crypto/ratchet-engine.ts:115-162 | after any run replays under any header, own messages under any header, and ciphertexts of other secrets are refused and both sessions stay as they were, outside the cases of the next two rows |
| Theorems.ZeroChainExact | web_sdk/src/crypto/ratchet-engine.ts:44-71 | after any run, when exactly a ciphertext under the all-zero chain is accepted, by either party and under any header |
| Theorems.ReflectExact | web_sdk/src/crypto/ratchet-engine.ts:58-77 | after any run a party takes its own message back exactly as a responder that has accepted nothing, under the all-zero header key |
| Theorems.ZeroChainInputs | web_sdk/src/crypto/ratchet-engine.ts:58-77 | three inputs at the start of a conversation that are accepted in this way |
| Theorems.ForgeryFillsStore | web_sdk/src/crypto/ratchet-engine.ts:228-252 | one accepted ciphertext of the all-zero chain can fill the initiator's store, after which nothing later in that chain is accepted before the message that is due |
| Persistence.SlotNameInjective | web_sdk/src/crypto/ratchet-engine.ts:116 | the map key `dh:n` determines both the key and the number |
| Persistence.SerializeKeys | web_sdk/src/crypto/ratchet-engine.ts:167-172 | the loop writes every skipped key under its own name |
| Persistence.DeserializeKeys | web_sdk/src/crypto/ratchet-engine.ts:190-194 | the loop reads every stored key back, or fails if one does not decode |
| Persistence.SessionRoundTrip | web_sdk/src/crypto/ratchet-engine.ts:167-207 | a session written and read back is the same session |
| Persistence.StoredFields | web_sdk/src/crypto/ratchet-engine.ts:167-185 | each field of the stored record is the text of the session's field of that name |
| Persistence.PersistenceTransparent | web_sdk/src/crypto/ratchet-engine.ts:167-207 | storing both sessions as text after every step of any run changes no event and no session |
| Persistence.StoredRunRefines | web_sdk/src/crypto/ratchet-engine.ts:110-207 | with string names and stored sessions every run still shows the events of the mailboxes |
| WireFormat.PlainWireFaithful | web_sdk/src/crypto/crypto-utils.ts:137-208 | keys can be written as bytes and read back, as the rows on stored sessions suppose |
| Conversation.Conversation.constructor | web_sdk/src/client/chat-client.ts:433-443 | a new conversation has the text of its session stored and nothing sent or shown |
| Conversation.Conversation.Load | web_sdk/src/conversation/one-to-one-conversation.ts:28-36 | loading gives back the session that was saved last |
| Conversation.Conversation.Send | web_sdk/src/conversation/one-to-one-conversation.ts:28-73 | wherever a send stops, the network has seen the message only if the advanced session was saved, and the user sees their text exactly when it completes |
| Conversation.IncomingShows | web_sdk/src/conversation/one-to-one-conversation.ts:223-272 | whatever arrives, exactly one thing is shown unless the process stops: the text if it opens and is saved, and an error in every other case |
| Conversation.Conversation.OnIncomingMessage | web_sdk/src/conversation/one-to-one-conversation.ts:223-272 | the same of the method; a message without session, of another kind, or that cannot be decrypted leaves the stored session alone |
| Conversation.DecryptSendHalf | web_sdk/src/crypto/ratchet-engine.ts:110-162 | whatever arrives, decryption leaves the sending chain as it is or starts one from a deeper root |
| Conversation.NoKeyReuse | web_sdk/src/conversation/one-to-one-conversation.ts:28-53 | in any sequence of sends and receipts that may stop anywhere, no two messages of the conversation share a key |
| Conversation.KeysAcross | web_sdk/src/crypto/ratchet-engine.ts:58-105 | messages of two conversations with different secrets share a key exactly when both are under the same number of the all-zero chain |
| Conversation.FirstKeysShared | web_sdk/src/crypto/ratchet-engine.ts:58-105 | the first messages of any two responders that have received nothing are under one key |
| Overlap.FreshKeysDistinct | web_sdk/src/conversation/one-to-one-conversation.ts:28-41 | sends and receipts of which none saves between the load and the save of another use no key twice |
| Overlap.SendsDistinctExactly | web_sdk/src/conversation/one-to-one-conversation.ts:28-41 | in any run of sends only, the keys are distinct exactly when no send saves between the load and the save of another |
| Overlap.ChainStartInjective | web_sdk/src/crypto/ratchet-engine.ts:254-285 | two key pairs of one party never start the same sending chain, whatever public keys it received |
| Overlap.KeysExact | web_sdk/src/conversation/one-to-one-conversation.ts:28-249 | in any run of overlapping sends and receipts, whatever arrives, two sealed messages share a key exactly when they carry the same ratchet key and number |
| Overlap.KeysDistinctExactly | web_sdk/src/conversation/one-to-one-conversation.ts:28-249 | in any such run the keys are distinct exactly when no send works on a session whose place in the chain was used before |
| Overlap.OverlapInput | web_sdk/src/conversation/one-to-one-conversation.ts:28-41 | two sends that both load before either saves seal two texts under one key and header |
| Overlap.ReceiptInput | web_sdk/src/conversation/one-to-one-conversation.ts:223-249 | a receipt that loads before a send and saves after it makes the next send use the same key and header again; before that send all keys are still distinct |
| Exchange.TalkShownOnce | web_sdk/src/conversation/one-to-one-conversation.ts:223-272 | a text taken from the channel is shown once or lost, never both |
| Exchange.ExchangeShows | web_sdk/src/conversation/one-to-one-conversation.ts:28-272 | with any delivery order, duplicates and a stop at any point of any call, calls of one user running one at a time, each user is shown exactly the peer's texts that were taken and not stopped after the save, each once |
| Exchange.ExchangeShowsAll | web_sdk/src/conversation/one-to-one-conversation.ts:28-272 | in the same runs the whole list a user is shown: own texts as sends complete, the peer's texts as they are taken, and an error for each message that is refused, of another kind, or not saved |
| Interleaving.SavesChange | web_sdk/src/crypto/ratchet-engine.ts:82-162 | a session that is saved is never the one it was made from |
| Interleaving.FreshRunIsSerial | web_sdk/src/conversation/one-to-one-conversation.ts:28-272 | overlapping calls that each finish while the session they loaded is still stored have the effect of the same calls one at a time |
| Interleaving.InterleavedShows | web_sdk/src/conversation/one-to-one-conversation.ts:28-272 | so in such runs each user is shown each text at most once, and the same whole list as with one call at a time |
| Interleaving.ShownTwice | web_sdk/src/conversation/one-to-one-conversation.ts:28-272 | a send that loads before a receipt and saves after it lets the same message be shown twice |
| X3dh.Find | web_sdk/src/crypto/x3dh-engine.ts:117 | the prekey found is the first with that id, and none is found only if there is none |
| X3dh.AgreementExact | web_sdk/src/crypto/x3dh-engine.ts:28-128 | a bundle with a bad signature is refused; otherwise the header names the keys used, and a responder agrees exactly when the bundle describes its present keys and it takes the right identity for the sender's |
| X3dh.SecretsFresh | web_sdk/src/crypto/x3dh-engine.ts:54-82 | agreements with different new ephemeral keys have different secrets |
| X3dh.HandshakeDelivers | web_sdk/src/crypto/ratchet-engine.ts:29-77 | ratchets initialised from the two ends of a handshake deliver like the mailboxes |
| Prekeys.GenerateOtpks | web_sdk/src/crypto/key-generator.ts:62-72 | the loop numbers the new key pairs consecutively from the start id |
| Prekeys.Device.constructor | web_sdk/src/crypto/key-generator.ts:29-55 | registration publishes and records keys 1 to count and continues after them |
| Prekeys.Device.HandleLowOtpk | web_sdk/src/client/otpk-replenisher.ts:31-72 | only below the threshold: fifty keys from the next id, published and then recorded, wherever the call stops |
| Prekeys.IdsStayInOrder | web_sdk/src/client/otpk-replenisher.ts:40-65 | after any replenishments the recorded ids are 1, 2, .. below the next id, each once |
| Prekeys.KeysStayDistinct | web_sdk/src/crypto/key-generator.ts:62-72 | no two recorded prekeys share a private key |
| Prekeys.ReplenishAdds | web_sdk/src/client/otpk-replenisher.ts:31-66 | a finished replenishment below ten prekeys publishes and records exactly fifty new keys with the next ids; at ten or more nothing changes |
| Prekeys.PrekeysMatch | web_sdk/src/client/otpk-replenisher.ts:31-66 | the responder finds the right private key for every published id exactly when no replenishment stopped between publishing and saving |
| Prekeys.PublishedPrekeyAgrees | web_sdk/src/crypto/x3dh-engine.ts:116-122 | a bundle made of published rows describes the device's present keys, so the handshake succeeds |
| SenderKey.OpensExactly | web_sdk/src/crypto/sender-key-engine.ts:40-96 | a session opens what another encrypts exactly at the same chain key and under the key it verifies |
| SenderKey.DistributionKeeps | web_sdk/src/crypto/sender-key-engine.ts:101-149 | a receiver gets back exactly the sender's session, private signing key included, unless that key has no bytes |
| SenderKey.MemberWritesAsSender | web_sdk/src/crypto/sender-key-engine.ts:101-149 | a member given the material of any session can make a message that another member opens as the sender's exactly when that session held the private half of its signing key, and that key has bytes |
| SenderKey.OpensOnlyNext | web_sdk/src/crypto/sender-key-engine.ts:65-96 | a receiver opens exactly the message of its own position, and refuses every other |
| SenderKey.OpensOnlyGenuine | web_sdk/src/crypto/sender-key-engine.ts:65-96 | whatever blob arrives, a receiver opens it exactly when it is the sender's message of its position, as long as nobody else signs for the sender |
| SenderKey.ShowsOnlyGenuine | web_sdk/src/crypto/sender-key-engine.ts:65-96 | so whatever arrives, a receiver shows a stretch of the sender's texts in order, without a gap and with nothing in between |
| SenderKey.SenderKeyLockstep | web_sdk/src/crypto/sender-key-engine.ts:40-96 | in every delivery order the receiver shows the sender's texts from its start on, in order without a gap, and holds the session the sender had there |
| SenderKey.GroupDelivery | web_sdk/src/crypto/sender-key-engine.ts:28-149 | the same from a new sender through the distributed key material |
| SenderKey.CounterFollows | web_sdk/src/crypto/sender-key-engine.ts:65-96 | in-order delivery shows everything; a message that never comes stops the receiver for good |
| PrekeyPool.OldestDevice | crates/kds/src/lib.rs:228-244 | the device fetched for is the user's oldest, and there is none only for a user without devices |
| PrekeyPool.FetchServesUser | crates/kds/src/lib.rs:228-316 | a fetch for a user serves the oldest of that user's devices to its end, and starts exactly if there is one |
| PrekeyPool.LowestFree | crates/kds/src/lib.rs:255-267 | the selected row is the unconsumed, unlocked row of the device with the lowest id |
| PrekeyPool.RunKeeps | crates/kds/src/lib.rs:133-405 | every interleaving of fetches, replenishments and registrations keeps locks and new keys apart and consumed rows equal to handed-out rows |
| PrekeyPool.HandedOutOnce | crates/kds/src/lib.rs:253-316 | no prekey row is returned by two committed fetches, in any interleaving with aborts |
| PrekeyPool.KeysUnique | crates/kds/src/lib.rs:197-213 | a device never has two rows with one key id |
| PrekeyPool.RowIdsDistinct | crates/kds/src/lib.rs:197-213 | no two prekey rows have the same row id |
| PrekeyPool.RowIsSupplied | crates/kds/src/lib.rs:197-370 | in every interleaving each row carries the id and the public key of a key that a client supplied for that device |
| PrekeyPool.FetchedIsSupplied | crates/kds/src/lib.rs:253-316 | each prekey a fetch returns is one that was supplied for the device it was fetched for |
| PrekeyPool.DepletedExact | crates/kds/src/lib.rs:255-277 | a fetch finds the pool depleted exactly when every unconsumed row is locked by another fetch in flight |
| PrekeyPool.PoolConserved | crates/kds/src/lib.rs:253-316 | in every interleaving the rows of a device are those handed out plus those left |
| PrekeyPool.CounterDrift | crates/kds/src/lib.rs:374-401 | after a replenishment in any interleaving the counter is off by exactly what was fetched less what was added between its count and its write |
| PrekeyPool.FetchKeepsError | crates/kds/src/lib.rs:291-302 | a fetch keeps the error of a counter, except that the clamp takes one off a counter that is too low at zero |
| PrekeyPool.ExactExactly | crates/kds/src/lib.rs:374-401 | a step keeps all counters and all counts about to be written right exactly when it commits no change of a pool that a replenishment has counted and not written |
| PrekeyPool.CountersExact | crates/kds/src/lib.rs:274-302 | in every interleaving of such steps each counter is the number of unconsumed rows |
| PrekeyPool.CountIsPositive | crates/kds/src/lib.rs:291-302 | while counters are right, the clamp at zero never fires |
| PrekeyPool.DriftInput | crates/kds/src/lib.rs:374-401 | a fetch between count and write leaves a counter of one for an empty pool |
| PrekeyPool.LimitExactly | crates/kds/src/lib.rs:154-169 | a step keeps every user within the limit, and with a place for each registration that passed the check, exactly when it does not take the last place while another one has passed |
| PrekeyPool.DeviceLimit | crates/kds/src/lib.rs:154-169 | in every interleaving of such steps no user has more than five devices |
| PrekeyPool.DevicesAfter | crates/kds/src/lib.rs:154-218 | a registration leaves the user with the devices it counted, those that joined since, and its own |
| PrekeyPool.LimitInput | crates/kds/src/lib.rs:154-169 | two registrations that both count four devices leave the user with six |
| PrekeyPool.SerialExact | crates/kds/src/lib.rs:133-405 | over every run of one transaction at a time each counter is the number of unconsumed rows and no user has more than five devices |
| PrekeyPool.AloneExact | crates/kds/src/lib.rs:348-405 | a replenishment that runs alone leaves the counter right, whatever it was |
| PrekeyPool.KeyServer.PickDevice | crates/kds/src/lib.rs:228-244 | the fetch starts on the user's oldest device, or not at all if there is none |
| PrekeyPool.KeyServer.SelectPrekey | crates/kds/src/lib.rs:253-272 | the scan locks the free row with the lowest id, and none exactly when all are held by others |
| PrekeyPool.KeyServer.MarkConsumed | crates/kds/src/lib.rs:279-289 | the mark changes no table and no lock until the commit |
| PrekeyPool.KeyServer.LowerCounter | crates/kds/src/lib.rs:291-302 | the fetch gets the device lock exactly if nobody holds it, and no table changes until the commit |
| PrekeyPool.KeyServer.AddOtpks | crates/kds/src/lib.rs:358-373 | every key the loop got through is in the table or in the transaction, a new one with the public key of its first mention, and it stops short only at a key that another transaction has inserted and not ended |
| PrekeyPool.KeyServer.CountUnconsumed | crates/kds/src/lib.rs:375-388 | the count is the device's unconsumed rows |
| PrekeyPool.KeyServer.CountOtpks | crates/kds/src/lib.rs:375-388 | the count a replenishment takes is right when it is taken |
| PrekeyPool.KeyServer.WriteCounter | crates/kds/src/lib.rs:390-401 | the replenishment gets the device lock exactly if nobody holds it, and no table changes until the commit |
| PrekeyPool.KeyServer.CheckLimit | crates/kds/src/lib.rs:154-169 | a registration goes on exactly if the user has fewer than five devices |
| PrekeyPool.KeyServer.CommitTx | crates/kds/src/lib.rs:316 | rows, counter and lock release of a transaction become visible together |
| PrekeyPool.KeyServer.AbortTx | crates/kds/src/lib.rs:253-316 | the transaction is gone with its locks, and tables and all others stay as they were |
| PrekeyPool.KeyServer.RegisterDevice | crates/kds/src/lib.rs:133-218 | alone, a sixth device or a repeated key id changes nothing; otherwise the device and its keys are added |
| PrekeyPool.KeyServer.ReplenishOtpks | crates/kds/src/lib.rs:348-405 | meeting no lock and no pending key, known rows are kept, each new key is in the table with its public key, and the counter is right, whatever it was |
| Sequencing.GaplessSequencing | crates/messaging/src/lib.rs:368-411 | in every interleaving with aborts the committed numbers of a conversation are 1 to `last_seq`, each once, in commit order |
| Sequencing.CommitOrder | crates/messaging/src/lib.rs:368-411 | no smaller number is committed after a larger one |
| Sequencing.KeyIsNew | crates/messaging/src/lib.rs:388-409 | the uniqueness constraint never rejects the row of a store that has its number |
| Sequencing.StoreAppends | crates/messaging/src/lib.rs:351-425 | from every reachable state an unhindered store adds one row numbered `last_seq + 1`; an unknown conversation changes nothing |
| Sequencing.PageSize | crates/messaging/src/lib.rs:435-437 | the page size lies in 1 to 200 for every u64 limit, wrapped casts included |
| Sequencing.PageExact | crates/messaging/src/lib.rs:427-495 | a page is exactly messages 1 to min(page, before - 1, last), in order; a wrapped `before_seq` gives none |
| Sequencing.DrainExact | crates/messaging/src/lib.rs:656-716 | a device with a state row gets exactly acked + 1 to min(acked + 100, last), in order; one without gets none |
| Sequencing.MessageStore.TakeNumber | crates/messaging/src/lib.rs:370-386 | the number is one above the committed one, under the row lock; an unknown conversation ends the store |
| Sequencing.MessageStore.InsertRow | crates/messaging/src/lib.rs:388-409 | the row is never rejected, has the number after the committed one, and is not visible before the commit |
| Sequencing.MessageStore.CommitStore | crates/messaging/src/lib.rs:411-424 | the returned envelope has the next number and the body of its store |
| Sequencing.MessageStore.AbortStore | crates/messaging/src/lib.rs:368-411 | the conversation is unlocked and its number and messages are as before |
| Sequencing.MessageStore.GetMessages | crates/messaging/src/lib.rs:427-526 | in every valid state the page is the exact slice of the conversation |
| Sequencing.MessageStore.DrainOfflineQueue | crates/messaging/src/lib.rs:656-747 | in every valid state the drained list is the exact slice after the acknowledged number |
| RefreshTokens.RunKeeps | crates/auth/src/refresh.rs:147-269 | every run with failures anywhere keeps tokens in linear chains of one holder |
| RefreshTokens.OneLivePerFamily | crates/auth/src/refresh.rs:147-269 | a family never has two live tokens |
| RefreshTokens.RedeemsOnce | crates/auth/src/refresh.rs:178-206 | no token is redeemed twice and none has two successors |
| RefreshTokens.HolderConstant | crates/auth/src/refresh.rs:207-262 | tenant, user and device are the same along a chain, and stored rows agree with the claims |
| RefreshTokens.IssueExact | crates/auth/src/refresh.rs:308-372 | an issue gives a pair exactly when neither encoding nor storing fails; both tokens are then for the given tenant, user and device, the refresh token for thirty days, and no other token is affected |
| RefreshTokens.RefreshExact | crates/auth/src/refresh.rs:147-269 | a refresh gives a pair exactly when nothing fails and the token is live; the old one is then dead, the new one lives for thirty days, and the access token has the same holder for an hour; when exactly it is unauthorized |
| RefreshTokens.RefreshLeaves | crates/auth/src/refresh.rs:178-206 | a refresh affects no other token, and kills its own exactly when that is live and nothing fails before the revocation |
| RefreshTokens.ReplayRefused | crates/auth/src/refresh.rs:178-192 | a redeemed token presented again, after anything, gives no pair and changes nothing |
| RefreshTokens.RefreshService.StoreRefreshToken | crates/auth/src/token_store.rs:134-155 | a used id is refused; a stored token passes the check until it expires, and no other token is affected |
| RefreshTokens.RefreshService.RevokeToken | crates/auth/src/token_store.rs:161-185 | afterwards the token fails the check at every time, found or not, and no other token is affected |
| RefreshTokens.RefreshService.CheckRevoked | crates/auth/src/token_store.rs:195-225 | a token passes exactly when its row exists for the tenant, is unrevoked and unexpired |
| RefreshTokens.RefreshService.IssuePair | crates/auth/src/refresh.rs:308-372 | an issue starts a new chain, wherever it fails, and keeps the chains in order |
| RefreshTokens.RefreshService.RefreshPair | crates/auth/src/refresh.rs:147-269 | check, revoke, sign and store in this order, with every failure exit, keep the chains in order |
| TenantRegistry.LoadedIs | crates/auth/src/tenant_registry.rs:89-106 | a loaded registry serves every row under its issuer and nothing else |
| TenantRegistry.SoundExactly | crates/api/src/admin.rs:192-298 | a step keeps every served config equal to its row exactly when it does not stop between table and registry with the old entry served |
| TenantRegistry.StoppedHandlerServesStale | crates/api/src/admin.rs:237-241 | a deactivation that stops after its write leaves the tenant resolving as active |
| TenantRegistry.RestartSound | crates/auth/src/tenant_registry.rs:89-106 | a restart makes the registry sound from any state, loaded or empty |
| TenantRegistry.RegistrySound | crates/api/src/admin.rs:192-298 | in every run of handlers that finish or fail in their database step, every served config is the table's row |
| TenantRegistry.DeactivatedNeverActive | crates/api/src/admin.rs:223-244 | a deactivated tenant never again resolves as active, through any issuer |
| TenantRegistry.FreedIssuerNeverReturns | crates/api/src/admin.rs:258-298 | an issuer a tenant gave up never resolves to that tenant until it is given back |
| TenantRegistry.CompleteExactly | crates/api/src/admin.rs:192-298 | every active row stays served exactly when no step adds or moves one without telling the registry, or stops between its two changes of it |
| TenantRegistry.StoppedUpdateUnserved | crates/api/src/admin.rs:278-295 | an issuer update that stops between its two changes of the registry leaves an active tenant that resolves through no issuer |
| TenantRegistry.TenantServer.LoadAll | crates/auth/src/tenant_registry.rs:89-106 | after the loop each issuer resolves to its own row, and after a failed query to nothing |
| TenantRegistry.TenantServer.ResolveByIssuer | crates/auth/src/tenant_registry.rs:113-116 | in a sound state what is served is the table's row for that issuer |
| TenantRegistry.TenantServer.Invalidate | crates/auth/src/tenant_registry.rs:123-126 | afterwards this issuer resolves to nothing and every other issuer as before |
| TenantRegistry.TenantServer.Upsert | crates/auth/src/tenant_registry.rs:133-136 | afterwards the issuer of the config resolves to it and every other issuer as before |
| TenantRegistry.TenantServer.CreateTenant | crates/api/src/admin.rs:192-210 | a taken issuer changes nothing; otherwise the new tenant is added and served as given, other issuers resolve as before, and the registry stays sound |
| TenantRegistry.TenantServer.DeactivateTenant | crates/api/src/admin.rs:223-244 | the tenant becomes inactive and stops resolving, others are not affected; sound exactly unless stopped in between |
| TenantRegistry.UpdateExact | crates/api/src/admin.rs:258-298 | a finished issuer update keeps name and state, resolves through the new issuer and not the old one, and no update affects another tenant |
| TenantRegistry.TenantServer.UpdateOidcIssuer | crates/api/src/admin.rs:258-298 | the tenant moves to the new issuer in table and registry; sound and complete exactly unless stopped in between |

## Left out

- The primitives themselves (HKDF, AES-GCM, X25519, Ed25519) and the IV prefix of a ciphertext: they are the free algebra of `Terms`, in which distinct terms are distinct keys.
- A header altered on a peer's message that has not been delivered, and ciphertexts made from the conversation's own secret by someone who has it: the header is not an input of the cipher, so nothing is promised there.
- Overlapping calls on one device record, one refresh token or one tenant: those run one at a time here, as the code takes no lock.
- The time between the save of a call and what follows it: in `Interleaving` a call posts or shows in the same step in which it saves, so a later order of posting and showing is not covered.
- Runs after a ciphertext of the all-zero chain was accepted: when that happens is exact, and `Theorems.ForgeryFillsStore` shows what it can do, but which deliveries succeed afterwards is not stated.
- Exchange.ExchangeShows: supposes that calls of one user do not overlap; `Interleaving` says when overlapping calls come to the same.
- WireFormat.PlainWireFaithful: shows that a readable format exists; the raw and PKCS8 formats themselves are foreign calls.
- X3dh.HandshakeDelivers: starts the responder with the engine's initialiser on its identity key pair; no client code makes that call yet.
- `fetchHistory`, the group pending queue, hex and UUID helpers, and `concatBytes`: they would only add easy members.
- The client-side conversation id of `openConversation` against the one the server returns: the ratchet is proved at engine level.
- Realtime delivery, the offline queue cap and acknowledgements: the code promises no delivery there.
- HTTP, JWT decoding, JWKS caching, metrics and the SQL driver: a failed decode is one of the failures of a refresh.
- The wait of two first registrations of a new user for each other on the users row: more interleavings are allowed here than the database allows.
- Integer widths of `last_seq`, `otpk_count` and key ids, other than the casts of `limit` and `before_seq`: they are unbounded here.
- TenantRegistry.FreedIssuerNeverReturns: says nothing once the tenant is given the same issuer again.
