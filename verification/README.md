# HttpPooler, modelled and proved

HttpPooler is a job pool. Clients connect to a server and submit HTTP jobs, run them against local upstreams, or both;
the server queues the jobs of each service, leases provider slots to them and relays each job over multiplexed,
renumbered connections. A connection is a strict binary codec on a stream of encrypted records.

The model follows that structure, one module a layer.

| modules | what they hold |
|---|---|
| `Wire`, `Unicode`, `Encode`, `Decode`, `CodecLaws`, `Layout`, `Session` | the messages, what UTF-8 is, the builder and decoder as classes, why they are exact inverses on one domain, the octets themselves, and whole sessions with HELLO where it belongs |
| `Symbolic`, `Records`, `Noise`, `Channel`, `Intruder` | ideal primitives, the record stream with its in-place buffer, the Noise_NNpsk0 handshake, all of it together, and an active network without the pre-shared key |
| `Scheduler`, `PoolRuns`, `Ages`, `Pool`, `RelayPool` | the pool's lock sections as functions on a state, every interleaving of the goroutines around them, the queue by age, the mutable objects that refine them, and relays as the pool's clients |
| `Inbox`, `JobTable` | a job's unbounded inbox with its broadcast wake-up, and the jobs of a connection |
| `Jobs`, `Provide`, `Relay`, `RelayLaws`, `RelayTrace`, `Consume`, `LastHop`, `Visits`, `Tokens`, `Headers`, `Requests`, `EndToEnd` | a job's hops: the provider, the relay with its retries, the consumer on top of net/http's response writer, headers across hops, and their composition |

How to read it:

- Code that changes things in place is a class or a method with a loop, proved equal to a specification function; the
  theorems are about that function and, where several goroutines meet, about every run of a transition system whose
  steps are the lock-protected sections.
- What a specification function computes is stated a second time without it, on fields, positions and literal octets:
  `Layout.LaidOut`, `Unicode.Utf8Exactly`, `Noise.FirstMessage` and `SecondMessage`, `Scheduler.BestIsBest`,
  `RelayTrace.RunEnds`, `Provide.SendsExactly`, `Visits.VisitExactly`, `Headers.AfterHopExactly`.
- Cells on the network are symbolic. Hashes and key derivations are free constructors, a ciphertext opens only under
  what it was sealed with, and an attacker may do anything to a stream but make a sealed cell nobody sealed.
- A connection that dies is one that takes so many more messages and then none. Timeouts, cancellations, lost
  connections, short reads and whatever an upstream or a peer says are parameters over which every theorem quantifies.
- A `Link` is one job's share of a connection. The messages of other jobs interleave with it without a trace in it.

## Where the code and its documentation differ

The model follows the code.

- `internal/wire/record.go:86-88` says a record that does not authenticate ends the stream for good. `Read` keeps no
  error, so a caller that asks again can get the genuine record behind a garbage one (`Records.RefusalIsNotFinal`).
  `Records.OverForGoodExactly` says when a stream is over, and `Records.PrefixUnderAttack` that what comes out is a
  prefix all the same.
- EOF from the record reader does not mean a record boundary: a stream cut right behind a length header ends the same
  way. `Records.EofExactly` says when, and `Records.CutBehindHeader` is such a stream.
- `internal/peer/conn.go:169` says a job id is never reused on a connection. Only ids of running jobs are checked:
  `JobTable.IdComesAgain` is a run with one id twice, and `JobTable.OpenedExactly` says when an id is opened.
- `internal/peer/server.go:286-310` relays BODY and END without asking whether a RESPONSE came first, and a second
  RESPONSE as well. With a provider that keeps the order this cannot be seen; with one that does not, a job can be
  retried after part of an answer went out (`RelayLaws.BodyBeforeResponse`). `RelayLaws.OneAnswerExactlyIfOrderly`
  says exactly when the submitter still sees one answer.
- The consumer trusts the order in the same way, and the status as well: `internal/peer/consume.go:82-100` shows a 200
  nobody sent behind an informational RESPONSE (`LastHop.InformationalShowsTwo`) and can put a failure's reason into a
  body (`LastHop.ReasonInTheBody`). `LastHop.ShownExactlyAsGiven` says exactly when the application sees the answer as
  it came. An upstream never gives a provider an informational status, so of real providers' answers only a 101 with a
  body behind it is cut short (`EndToEnd.OneStatusLine`).
- `internal/peer/job.go:40-41` says a stray message after END ends the job. `watchCancel` ignores everything but
  CANCEL (`Jobs.BodyBehindEnd`, `Jobs.StraysChangeNothing`); `Jobs.CancelledExactly` says what does end it.
- `internal/noise/noise.go:91-148`: refusals of turn and length do not make a handshake fail for good; all others do
  (`Noise.RefusedAndStillDone`, `Noise.Handshake.ReadMessage`).
- `internal/pool/pool.go:194` calls the order of the queue oldest first. Two requeued jobs can stand in reverse
  (`Ages.RequeuedInReverse`); `Ages.OldestFirstExactly` says when the queue is by age. The order it does keep is that
  of the queue itself (`PoolRuns.NoOvertaking`).

## Model

| member | source | states |
|---|---|---|
| Wire.IntegerRoundTrip | internal/wire/encode.go:124-127 | A little-endian integer of any width that can hold the number reads back as the number. |
| Wire.IntegerCanonical | internal/wire/decode.go:175-201 | Every octet string is the one spelling of the integer it reads as. |
| Wire.AsciiIsUtf8 | internal/wire/encode.go:166-172 | Fixed ASCII reasons pass the UTF-8 check, so they can always be sent. |
| Unicode.Utf8Exactly | internal/wire/encode.go:157-172 | A text passes the check of every name and reason if and only if it is the concatenation of the encodings (section 3 of RFC 3629, by arithmetic) of some sequence of scalar values, surrogates excluded. |
| Unicode.CharIsSpelling | internal/wire/decode.go:226-243 | Whatever the check takes for one character is the encoding of a scalar value, so no overlong form, surrogate or value above 0x10FFFF passes. |
| Encode.EncodesExactlyEncodable | internal/wire/encode.go:74-235 | For all nine kinds, encoding is refused if and only if a field is outside the range PROTOCOL.md states (names, counts, status, job, slots, chunk, UTF-8). |
| Encode.EncodeMessage | internal/wire/encode.go:74-116 | Appends exactly the encoding behind dst and no more, or leaves dst as it was with the first refusal. |
| Encode.Builder.Fields | internal/wire/encode.go:80-113 | The field-by-field writes, with their loops and sticky error, build the same octets or first refusal as the compositional encoding. |
| Encode.Builder.Headers | internal/wire/encode.go:225-235 | The header loop writes the count and every header in order, or keeps the first refusal. |
| Encode.Builder.Chunk | internal/wire/encode.go:211-222 | An empty chunk and one longer than a u32 counts are refused; any other is written behind its length. |
| Encode.Encoder.Write | internal/wire/encode.go:31-51 | One call writes the whole message or nothing when it is refused; HELLO counts as sent only when the transport took all of it; a transport that fails has taken a prefix. |
| Decode.Decoder.Next | internal/wire/decode.go:31-50 | Yields exactly the message the reading function gives, and after any refusal repeats that refusal for ever and consumes nothing. |
| Decode.Decoder.ReadMessage | internal/wire/decode.go:54-109 | The kind dispatch and HELLO rules with sticky field errors agree with the compositional reading. |
| Decode.Decoder.Headers | internal/wire/decode.go:289-305 | The header loop reads as many headers as the count says, in order, stopping at the first refusal. |
| Decode.Decoder.HelloFields | internal/wire/decode.go:112-150 | HELLO is refused from a server and the second time; its providers come back in order. |
| CodecLaws.MessageInverts | internal/wire/encode.go:74-116 | For every sendable message and every input: if the input starts with its encoding the message and the exact rest come back, and if it is a strict prefix of it the end is reported as in the middle. |
| CodecLaws.RoundTrip | internal/wire/decode.go:54-109 | decode(encode(m) ++ rest) is (m, rest), for every sendable message of all nine kinds and every rest. |
| CodecLaws.Canonical | internal/wire/decode.go:54-305 | If decoding gives m and a rest then m is sendable and the input is encode(m) ++ rest: no message has a second spelling. |
| CodecLaws.Truncated | internal/wire/decode.go:161-173 | Every strict prefix of an encoding is unexpected EOF, never a message or another refusal. |
| CodecLaws.PrefixFree | internal/wire/encode.go:74-116 | No encoding is a prefix of another message's encoding. |
| CodecLaws.RelayedIsEncodable | internal/peer/server.go:299-312 | Whatever the decoder yields is accepted by the encoder under any non-zero job id, so a relay's re-send is never refused. |
| CodecLaws.HeaderSeqCanonical | internal/wire/decode.go:289-305 | Counted headers read back are the one spelling of what was consumed. |
| CodecLaws.ProviderSeqInverts | internal/wire/decode.go:112-150 | Any list of providers that fits is read back from its own encoding, wherever the input is cut. |
| Layout.LaidOut | internal/wire/encode.go:74-116 | The encoding of every sendable message is, field by field with literal kind octets, exactly the table of PROTOCOL.md: widths, order, little-endian, counts in front. |
| Layout.HeadersLaidOut | internal/wire/encode.go:225-235 | A header is the octet count of its name, the name, the u16 count of its value, the value, one behind the other. |
| Layout.ProvidersLaidOut | internal/wire/encode.go:80-90 | A provider is its counted name, its slots and its priority, two octets each. |
| Layout.NonceLaidOut | internal/noise/state.go:239-243 | The nonce is four zeros and the counter, its lowest octet first. |
| Layout.RecordLaidOut | internal/wire/record.go:51-66 | A record is two octets of length, low one first, that count the plaintext and sixteen more, and the ciphertext with no data. |
| Layout.OpeningLaidOut | internal/wire/record.go:154-183 | An initiator opens with the 55 octets of PROTOCOL.md: HPOL, 0, 48, 0, its ephemeral, and the empty payload sealed under the first transcript's key. |
| Session.StreamCut | internal/wire/decode.go:31-50 | A stream cut anywhere yields the messages that came whole, in order, and stops at the cut; whole, it yields all of them and a clean end. |
| Session.StreamCanonical | internal/wire/decode.go:31-59 | A stream that ends cleanly is the one encoding of the messages it yields, by an encoder of the opposite role. |
| Session.ClientSends | internal/wire/encode.go:54-71 | A client's encoder takes a sequence if and only if all of it is sendable and HELLO is its first message and only its first. |
| Session.ServerSends | internal/wire/encode.go:54-71 | A server's encoder takes a sequence if and only if all of it is sendable and none of it is HELLO. |
| Session.SessionsAgree | internal/wire/encode.go:31-71 | For both directions, the sequences one end's encoder takes are exactly those the other end's decoder yields from some cleanly ended stream. |
| Symbolic.OpensExactlySealed | internal/noise/state.go:201-236 | Under the ideal cipher a ciphertext opens to a plaintext if and only if it was sealed from it under the same key, counter and data. |
| Symbolic.NoncesDistinct | internal/noise/state.go:239-243 | Two counters up to the reserved one give the same 12 nonce octets only if they are equal. |
| Symbolic.CipherState.SealNext | internal/noise/state.go:201-215 | Sealing fails exactly on the reserved counter or an oversized plaintext, and a failed call does not use the counter up. |
| Symbolic.CipherState.OpenNext | internal/noise/state.go:218-236 | Opening succeeds exactly when the ciphertext is the one sealed at this counter, and a refusal does not move the counter. |
| Records.ChunksArithmetic | internal/wire/record.go:40-69 | A write of n octets is ceil(n / 65519) records of 17 to 65535 octets each, all but the last full, so the u16 length never overflows. |
| Records.ChunksConcat | internal/wire/record.go:40-69 | The records of a write put together are what was written. |
| Records.SealedOnce | internal/wire/record.go:40-69 | Every record of a direction has its own counter, and the counter names its plaintext. |
| Records.RecordWriter.WriteRecord | internal/wire/record.go:51-66 | Puts exactly one record on the connection, at the next counter; the connection holds all records so far, or a prefix once it broke. |
| Records.RecordWriter.Write | internal/wire/record.go:40-69 | The loop seals the chunks of p in order and succeeds exactly when the counters and the connection last for all of them. |
| Records.RecordReader.Next | internal/wire/record.go:102-128 | Reads, checks and decrypts one record over its own ciphertext in the reused buffer, and is asked to only when no undelivered plaintext is left in it. |
| Records.RecordReader.Unseal | internal/wire/record.go:121-126 | Decryption in place: the buffer holds the plaintext where the ciphertext was, and on a refusal nothing is delivered. |
| Records.RecordReader.Read | internal/wire/record.go:89-99 | Hands out exactly what one read of the stream owes, whatever the buffer's size, and touches nothing of the buffer beyond it. |
| Records.PrefixUnderAttack | internal/wire/record.go:89-128 | For any network that does not forge tags and any read sizes, even reading on after refusals, what comes out is a prefix of what was written. |
| Records.AllOverHonestNetwork | internal/wire/record.go:89-128 | Over an honest network enough reads of any sizes hand out everything written. |
| Records.EofExactly | internal/wire/record.go:102-120 | A reader ends with EOF if and only if nothing is left, or exactly a length header of a well-formed record is. |
| Records.NextOutcome | internal/wire/record.go:102-128 | The next two octets and what follows decide, each if and only if: end, cut, a length below 17, a forgery, or the plaintext that was sealed at this counter. |
| Records.CutBehindHeader | internal/wire/record.go:102-120 | A stream of genuine records cut right behind a length header ends with EOF. |
| Records.NeverTwoPlaintexts | internal/noise/state.go:239-243 | The cipher is never given the same twelve nonce octets for two plaintexts of a direction. |
| Records.RefusalIsNotFinal | internal/wire/record.go:86-99 | At any counter, behind a garbage record the genuine one is still accepted: the reader itself does not end the stream, whatever its comment says. |
| Records.NothingWithoutItsRecord | internal/wire/record.go:86-128 | While no record sealed at the reader's counter is on its way, nothing is handed out, however much else arrives and however often it is asked. |
| Records.OverForGoodExactly | internal/wire/record.go:86-128 | When the stream is over for good: however the reader goes on it gets nothing more, if and only if none of the ciphertexts it would still cut from the network opens at its counter. |
| Noise.DhCommutes | internal/noise/noise.go:244-250 | Both sides of a Diffie-Hellman form the same secret. |
| Noise.ReadInvertsWrite | internal/noise/noise.go:177-241 | A message is read back with its payload by a side in the same state, which ends with the writer's hash, chaining key and cipher. |
| Noise.HonestAgreement | internal/noise/noise.go:152-241 | With one psk and prologue and unaltered messages both are accepted, both sides' symmetric states agree after each, and each side's send key is the other's receive key and differs from its own (sections 5.2, 5.3 and 9 of the Noise specification). |
| Noise.FirstMessage | internal/noise/noise.go:177-211 | The first message term by term: the psk goes into hash and chaining key, the ephemeral into both as well, the payload is sealed under the hash and then mixed in; both sides hold that. |
| Noise.SecondMessage | internal/noise/noise.go:152-241 | The second message term by term, ee behind e; and of the two transport keys the first is the one the initiator sends with. |
| Noise.ResponderAcceptsOnlyItsInitiator | internal/noise/noise.go:214-241 | A responder that accepts a message carrying a ciphertext some initiator sealed has that initiator's psk and prologue, got its message unaltered and is in its state. |
| Noise.InitiatorAcceptsOnlyItsResponder | internal/noise/noise.go:214-241 | An initiator that accepts an answer carrying a ciphertext some responder sealed shares psk, prologue and the whole transcript with it, and their keys are crossed. |
| Noise.Symmetric.Encrypt | internal/noise/state.go:89-103 | Seals under the current cipher with the hash as data, mixes the ciphertext in, and does so only if it succeeded. |
| Noise.Symmetric.Decrypt | internal/noise/state.go:107-121 | Opens under the current cipher with the hash as data and mixes the ciphertext in, or changes neither hash nor counter. |
| Noise.Handshake.New | internal/noise/noise.go:69-87 | A psk of any size but 32 is refused; otherwise the handshake starts from the protocol name and the prologue. |
| Noise.Handshake.WriteMessage | internal/noise/noise.go:91-115 | Performs exactly the specified step; a refusal of the turn changes nothing, every other refusal is for good. |
| Noise.Handshake.ReadMessage | internal/noise/noise.go:119-148 | Performs exactly the specified step; refusals of turn or length change nothing, every other refusal is for good. |
| Noise.RefusedAndStillDone | internal/noise/noise.go:91-148 | A responder asked to speak out of turn and given a message that is too short refuses both and still completes. |
| Noise.Handshake.Split | internal/noise/noise.go:152-173 | Gives two fresh ciphers with counters at zero and the keys of the completed state, by role, and only then. |
| Channel.HonestSetup | internal/wire/record.go:154-203 | With one secret the whole setup, preambles and framing included, is one round trip that ends with crossed keys and takes no octet of the records behind it. |
| Channel.VersionExactly | internal/wire/record.go:206-215 | A preamble is accepted if and only if it is HPOL and 0; anything else says whether it is no peer, another version, or cut. |
| Channel.FramedExactly | internal/wire/record.go:235-255 | A framed handshake message is accepted if and only if its two octets of length say at least 48 and so many follow. |
| Channel.SetupAgrees | internal/wire/record.go:154-203 | Whatever came over the network, a setup that completes against a responder's ciphertext has that responder's secret and crossed keys. |
| Channel.SetupInitiator | internal/wire/record.go:154-203 | The initiator's half, statement by statement, computes its session or the same refusal and writes its opening. |
| Channel.SetupResponder | internal/wire/record.go:154-203 | The responder's half likewise, with its answer. |
| Channel.Setup | internal/wire/record.go:154-203 | The statement-by-statement setup computes the initiator's or the responder's session, or the same refusal, and writes what it should. |
| Channel.SessionUnderAttack | internal/wire/record.go:89-128 | Whatever the network does to the records short of forging, the messages the other end decodes are the first of those sent. |
| Channel.SessionOverHonestNetwork | internal/wire/record.go:40-128 | Over an honest network the codec runs unchanged over any split into records and reads: all messages, then a clean end. |
| Intruder.InitiatorKeysHidden | internal/noise/noise.go:152-241 | Whatever an initiator is answered, nobody who has every Diffie-Hellman secret and hashes and derives whatever there is, but not its psk, can come to the transport keys it ends with. |
| Intruder.ResponderKeysHidden | internal/noise/noise.go:152-241 | The same of a responder, whatever opening it accepts. |
| Intruder.AcceptedSealed | internal/wire/record.go:154-203 | The ciphertext an initiator accepts is sealed under a key that cannot be built without its psk. |
| Intruder.NoForgery | internal/wire/record.go:102-128 | What such a network shows sealed under a transport key was written under it. |
| Intruder.SecureSession | internal/wire/record.go:154-203 | A setup completed through such a network has its keys, crossed, with a responder that has the psk, and what is then decoded is a prefix of what was written for it, whatever the network does. |
| Intruder.SecureResponder | internal/wire/record.go:154-203 | An opening a responder accepts through such a network is, cell for cell, that of an initiator with its psk, and what it then decodes is a prefix of what was written for it. |
| Scheduler.BestIsBest | internal/pool/pool.go:209-221 | On the fields: the chosen provider is listed, not gone and has busy < slots; among all such its priority number is the smallest, among those of that number it has the most slots open, among those it is listed first; none is chosen if and only if there is no such provider. |
| Scheduler.AcquireChooses | internal/pool/pool.go:128-147 | A lease comes at once if and only if nobody waits and some listed provider has a slot open, and it is a lease of the provider chosen so. |
| Scheduler.HandOverChooses | internal/pool/pool.go:195-221 | Every waiter that is handed a lease gets it from the provider chosen so in the state of its moment, in which exactly those ahead of it have been served. |
| Scheduler.DispatchKeeps | internal/pool/pool.go:195-205 | Handing out slots keeps the state consistent, serves exactly a prefix of the queue, and ends with no job waiting beside a free slot. |
| Scheduler.AddKeeps | internal/pool/pool.go:95-102 | Adding a provider keeps consistency and establishes that no job waits beside a free slot. |
| Scheduler.RemoveKeeps | internal/pool/pool.go:106-121 | Taking a provider out keeps both, and its leases. |
| Scheduler.AcquireKeeps | internal/pool/pool.go:128-147 | The lock section of Acquire keeps both, at either end of the queue. |
| Scheduler.WithdrawKeeps | internal/pool/pool.go:164-173 | Taking a waiter out of the queue keeps both. |
| Scheduler.ReleaseKeeps | internal/pool/pool.go:71-81 | Releasing keeps both, frees one slot at most once and serves exactly a prefix of the queue. |
| PoolRuns.StepKeeps | internal/pool/pool.go:71-227 | Every step of every goroutine, the window of abandon between its unlock and its receive included, keeps the invariant. |
| PoolRuns.SlotsAccountedFor | internal/pool/pool.go:224-232 | After any run a provider's busy count is the number of jobs holding, about to receive or handing back one of its leases, and at most its slots. |
| PoolRuns.AbandonFindsItsLease | internal/pool/pool.go:174-181 | After any run a job that abandons and is no longer queued finds its lease in its channel: the default branch is never taken, and no slot is lost. |
| PoolRuns.HandOverNeverBlocks | internal/pool/pool.go:195-205 | After any run the head of the queue has an empty channel, so the send under the lock never waits. |
| PoolRuns.EverySlotComesBack | internal/pool/pool.go:71-81 | After any run that leaves no job on its way every busy count is zero. |
| PoolRuns.WorkConserved | internal/pool/pool.go:94-205 | After any run, while a job waits every provider of its service is gone or has all its slots busy. |
| PoolRuns.RunSparesGone | internal/pool/pool.go:106-121 | Over any run a removed provider stays removed and its busy count never rises. |
| PoolRuns.NoOvertaking | internal/pool/pool.go:128-205 | Over any run, of two queued jobs the one behind is served only after the one ahead was or gave up, and their order stays until then. |
| PoolRuns.NewcomerPlace | internal/pool/pool.go:128-147 | With anybody waiting a newcomer gets no slot; a requeued job is placed ahead of everyone then waiting, any other behind. |
| PoolRuns.WithdrawnStays | internal/pool/pool.go:164-181 | A job that gave up never gets a lease afterwards. |
| Pool.Service.Best | internal/pool/pool.go:209-221 | On the provider objects' fields: the loop returns the first of those with most slots open of those with the smallest priority of those not gone and with a slot open, or nothing if and only if there is none. |
| Pool.Service.Take | internal/pool/pool.go:224-227 | Counts the slot and makes the lease, as the scheduler's step does. |
| Pool.Service.Dispatch | internal/pool/pool.go:195-205 | The loop over objects and channels is the scheduler's dispatch. |
| Pool.Service.Add | internal/pool/pool.go:95-102 | Refines the scheduler's Add. |
| Pool.Service.Remove | internal/pool/pool.go:106-121 | Refines the scheduler's Remove: gone, out of the list, leases untouched. |
| Pool.Service.Acquire | internal/pool/pool.go:128-147 | Refines the scheduler's Acquire: a lease at once or a waiter at the right end. |
| Pool.Service.Withdraw | internal/pool/pool.go:164-173 | Refines the lock section of abandon, and says whether the waiter was still queued. |
| Pool.Service.Receive | internal/pool/pool.go:175-177 | Takes the lease out of the channel if and only if one is in it. |
| Pool.Service.Release | internal/pool/pool.go:71-81 | Refines the scheduler's Release, the second call included. |
| Pool.Service.Abandon | internal/pool/pool.go:164-181 | When nobody comes between its sections, the waiter leaves the queue or its lease is received and released. |
| Ages.StepAge | internal/pool/pool.go:128-205 | A queue in order of arrival stays so across a step if and only if no job joins it out of place: a front join no younger, a back join no older, than everyone waiting. |
| Ages.OldestFirstExactly | internal/pool/pool.go:128-205 | Over a run the queue is by age at every moment if and only if every join is by age. |
| Ages.RequeuedInReverse | internal/pool/pool.go:142-146 | A run in which two jobs of a lost provider, requeued in the order they arrived, stand with the younger ahead. |
| Inbox.JobQueue.Push | internal/peer/queue.go:30-39 | Appends and wakes everyone, unless closed. |
| Inbox.JobQueue.Close | internal/peer/queue.go:43-52 | Sets the reason and wakes everyone, the first time only; what is queued stays. |
| Inbox.JobQueue.Next | internal/peer/queue.go:56-79 | Gives the first message, else the reason, else whatever comes first while it waits: a push, a close, or the end of its context. |
| Inbox.StepKeeps | internal/peer/queue.go:30-86 | Every push, close, look, wake-up and giving up, by any number of readers, keeps the inbox invariant. |
| Inbox.NoLostWakeUp | internal/peer/queue.go:56-86 | After any interleaving a reader that cannot wake waits for good reason: nothing is queued and the queue is open. |
| Inbox.HandedInOrder | internal/peer/queue.go:30-79 | After any interleaving, what was handed out followed by what is queued is exactly the pushes before the first close, in order. |
| Inbox.ReasonOnlyWhenDrained | internal/peer/queue.go:43-79 | A reason is given only when all of those were handed out, and it is the first close's. |
| JobTable.Conn.NewJob | internal/peer/conn.go:145-158 | Gives out the next id with an empty queue of its own, unless the connection failed. |
| JobTable.Conn.OpenJob | internal/peer/conn.go:161-177 | Opens a queue exactly if the connection lives and no job of that id is running. |
| JobTable.Conn.EndJob | internal/peer/conn.go:181-190 | Forgets the job and closes its queue, and no other. |
| JobTable.Conn.Fail | internal/peer/conn.go:203-221 | Empties the table and closes every queue that was in it with the reason; the first reason stands. |
| JobTable.Conn.Dispatch | internal/peer/conn.go:264-315 | Classifies every message: ignored, pushed into its own job's queue only, a job opened, or a peer out of step; no other queue changes. |
| JobTable.Conn.Run | internal/peer/conn.go:232-299 | Over everything the read loop takes in, a job that is open gets exactly the messages about it into its queue, in order; a peer out of step ends the connection and every queue with the reason. |
| JobTable.StepKeeps | internal/peer/conn.go:145-221 | Every lock section, and every close of a queue between them, keeps the invariant. |
| JobTable.IdsNeverCollide | internal/peer/conn.go:145-200 | After any interleaving the ids a server gave out are 2, 4, 6 and so on, those of a client 1, 3, 5 and so on; the peer was let in with the other parity only; and no job runs under any other id. |
| JobTable.NobodyStranded | internal/peer/conn.go:181-221 | After any interleaving a queue is in the table, closed, or about to be closed by the operation that took it out; after a failure none is in the table. |
| JobTable.FailedForGood | internal/peer/conn.go:203-221 | Once failed, a connection keeps its reason, its empty table and gives out no more ids. |
| JobTable.OpenedExactly | internal/peer/conn.go:161-200 | Over any run a REQUEST opens a job if and only if the connection lives, the id is of the peer's parity, and it was never opened or was forgotten since. |
| JobTable.NotAgainUntilForgotten | internal/peer/conn.go:161-190 | As long as nobody has forgotten it, an open id is not opened again. |
| JobTable.IdComesAgain | internal/peer/conn.go:161-190 | A run in which one id gets a second job of its own on one connection. |
| EndToEnd.SentIsHeard | internal/peer/conn.go:116-125 | What a connection takes of a job is a stream its encoder really puts out and the other end's decoder hears message for message, and what stops it short of the connection is a message the encoder really refuses. |
| Jobs.WatchCancel | internal/peer/job.go:42-54 | The watching loop agrees with its specification, for every inbox and end. |
| Jobs.CancelledExactly | internal/peer/job.go:42-54 | A running job is cancelled if and only if a CANCEL is among what comes in or the inbox ends. |
| Jobs.StraysChangeNothing | internal/peer/job.go:40-54 | Any other message, wherever it comes, makes no difference. |
| Jobs.BodyBehindEnd | internal/peer/job.go:40-54 | A BODY behind END, which the comment says ends the job, ends nothing. |
| Jobs.Link.SendBodyEnd | internal/peer/conn.go:129-141 | The splitting loop sends the body's messages in order up to the first that is refused, and succeeds if and only if none is. |
| Jobs.Link.Submit | internal/peer/server.go:277-283 | A REQUEST and its body go out in order up to the first message refused. |
| Jobs.TakenAll | internal/peer/conn.go:116-141 | Sending stops exactly where the connection dies or the encoder refuses. |
| Jobs.PiecesArithmetic | internal/peer/conn.go:129-141 | A body of n octets is ceil(n / 32768) messages, each sendable and of 1 to 32768 octets. |
| Jobs.CollectBody | internal/peer/job.go:19-38 | The collecting loop agrees with the specification on whole, cut, cancelled and out-of-step bodies. |
| Jobs.CollectExactly | internal/peer/job.go:19-38 | By position: the first message that is no BODY decides whether the body is whole, cancelled or out of step, and a whole one is exactly the octets before END. |
| Jobs.CollectInvertsSend | internal/peer/job.go:19-38 | Collecting what was sent of a body gives the same body and trailers, and leaves whatever follows. |
| Jobs.CutBodyNeverCollected | internal/peer/job.go:19-38 | A body cut anywhere is never taken for a shorter one. |
| Jobs.SynthAnswers | internal/peer/consume.go:171-181 | A made-up answer is a RESPONSE with just that job and status, Content-Type text/plain and a Content-Length whose digits read back as the length of the body, then the reason and a newline, then END. |
| Jobs.OneMadeUp | internal/peer/consume.go:171-181 | And there is no other message sequence with these properties. |
| Jobs.AnswersAre | PROTOCOL.md:176-184 | The grammar by position: RESPONSE, BODYs, END or FAIL; a FAIL alone is an answer of a provider only. |
| Jobs.SynthEncodable | internal/peer/consume.go:171-181 | The encoder takes a made-up answer whatever its reason says. |
| Provide.SendParts | internal/peer/provide.go:97-113 | The read loop sends one BODY for every read that gave anything, in order. |
| Provide.RunUpstream | internal/peer/provide.go:58-116 | Sends nothing for a target that is no path or an unusable answer; else RESPONSE, body and END as far as reads and sends go, and reports success exactly when all went out. |
| Provide.AlwaysAnAnswer | internal/peer/provide.go:20-116 | Whatever the upstream does and wherever the connection dies, what is sent is a prefix of RESPONSE BODY* (END|FAIL) or FAIL; it is complete unless the connection died, slots are out of step or the reason is one the encoder refuses. |
| Provide.SendsExactly | internal/peer/provide.go:20-116 | With literal conditions: nothing if slots are out of step; a bare FAIL if there is no such service, no whole body, no target beginning with a slash or no status from 100 to 599; else the answer, END last if all of it went and FAIL last if it broke off. |
| Provide.BodiesAre | internal/peer/provide.go:97-113 | Every BODY is one read that gave something, under the job's id. |
| Provide.PassesAnswerOn | internal/peer/provide.go:85-116 | A complete upstream answer over a lasting connection goes out whole: status and headers, every body octet in order, trailers. |
| Provide.Endpoint.Take | internal/peer/endpoint.go:174-183 | A slot is claimed if and only if one is free, of that service only, and never more than there are. |
| Provide.Endpoint.Give | internal/peer/endpoint.go:186-190 | Gives back one slot of that service. |
| Provide.Run | internal/peer/provide.go:20-55 | Every branch of a job on the provider side sends exactly what the specification says, only slots out of step fail the connection, and the slot counts come out as they were. |
| Relay.PassOn | internal/peer/server.go:285-327 | The loop of one attempt relays, stops and ends exactly as specified, for every feed, ordering and failure. |
| Relay.DispatchTo | internal/peer/server.go:270-328 | One attempt: what the submitter and the provider are sent, whether it started, and how it ended, CANCEL included. |
| Relay.Attempts | internal/peer/server.go:208-264 | The retry loop over any script of the pool's and the providers' behaviour gives the specified trace, pool use and outcome. |
| Relay.RelayJob | internal/peer/server.go:199-265 | A job whose body does not come whole is dropped in silence; any other gives the trace of its attempts with that body. |
| Relay.Finish | internal/peer/server.go:229-264 | What is said, and what becomes of the job, after each way an attempt can end. |
| RelayLaws.OrderIsKept | internal/peer/server.go:286-327 | What is relayed of a provider that keeps the order is an answer as far as it gets, with any room and any end. |
| RelayLaws.OneAnswerExactlyIfOrderly | internal/peer/server.go:199-328 | Over any number of attempts at providers that may say anything, the submitter sees one answer if and only if every provider asked sent RESPONSE first and once. |
| RelayLaws.BodyBeforeResponse | internal/peer/server.go:286-310 | A concrete run in which a BODY before any RESPONSE is passed on, the job is retried all the same, and the submitter sees it in front of the next answer. |
| RelayLaws.PumpAgainstProvider | internal/peer/server.go:286-327 | Against a provider that keeps the grammar everything relayed is its own, in order from the start, and an attempt stops short only for the submitter. |
| RelayLaws.TurnLaw | internal/peer/server.go:210-264 | Another provider is asked only while the submitter has seen nothing; else the answer is complete or the submitter is gone. |
| RelayLaws.OneAnswer | internal/peer/server.go:199-338 | Over any number of requeues everything the submitter got stems from one attempt or one made-up 502 or 503, is a prefix of RESPONSE BODY* (END|FAIL), and is complete unless the job was cancelled, the submitter's connection died or the job still runs. |
| RelayLaws.LeasesComeBack | internal/peer/server.go:208-227 | Every lease is released before the next is asked for and by the end of the job; only the first request joins at the back. |
| RelayLaws.EveryAttemptSendsTheJob | internal/peer/server.go:270-318 | Every provider asked is sent a prefix of this job's REQUEST, body and CANCEL under its own id, and nothing else. |
| RelayLaws.SameBodyEveryAttempt | internal/peer/server.go:208-283 | Whatever a provider collects of an attempt, cut anywhere, is not whole yet or the very body and trailers the job came with. |
| RelayLaws.RequestGoesOut | internal/peer/server.go:276-283 | The encoder never refuses a relayed request or its body, so an attempt is cut only by its connection. |
| RelayTrace.PumpIsOver | internal/peer/server.go:285-327 | By position: where an attempt is over, what exactly was relayed with nothing but the id changed, whether it started, and how it ended. |
| RelayTrace.RunEnds | internal/peer/server.go:199-338 | For every job and whatever it meets: which answer of the pool is its last, what each provider asked was sent, and what the submitter was told, with literal statuses, reasons and outcomes. |
| RelayTrace.ToldToStop | internal/peer/server.go:289-321 | A CANCEL is sent to a provider if and only if it got the whole job, its connection takes one more message, and the application left with nothing more to pass on or the submitter's connection refused a message; it is the last the provider gets. |
| RelayTrace.LeftAlone | internal/peer/server.go:289-294 | A job whose application leaves while its provider has neither ended, failed nor strayed is abandoned. |
| RelayTrace.AnswersItself | internal/peer/server.go:210-263 | Behind any number of providers nothing came of, a timeout is told as a whole 503 with its reason; no connection, a FAIL before RESPONSE and a stray first message as a whole 502 with theirs. |
| RelayTrace.SubmissionIs | internal/peer/server.go:270-283 | A job on its way is its REQUEST, its body in BODYs under the same id, and END with its trailers. |
| RelayPool.StepKeeps | internal/peer/server.go:208-227 | Any step of any relay, or of the pool around them, keeps every ticket owned, every held lease held and every trace in discipline. |
| RelayPool.OverExactly | internal/peer/server.go:208-264 | A trace is one that a relay here leaves when it is through if and only if some script of the pool's answers has the relay's own run leave it and end. |
| RelayPool.RelaysAreRuns | internal/peer/server.go:208-227 | However relays interleave, what the pool sees of it, event by event, is a run the pool can have and ends in its state, so every theorem about its runs is one about relays. |
| RelayPool.ReleaseIsPossible | internal/peer/server.go:223-224 | A relay that holds a lease can release it in the pool, whatever the others have done meanwhile. |
| RelayPool.AllJobsOver | internal/peer/server.go:208-264 | When every relay is through, every busy count is zero. |
| Consume.Application.WriteHead | internal/peer/consume.go:118-128 | Adds the headers, writes the status and flushes: the first final status counts, one before it is informational, and the flush implies 200. |
| Consume.Application.Synthesise | internal/peer/consume.go:162-167 | A made-up response replaces the two headers, writes what status and body the response still takes, and ends it. |
| Consume.Application.AnswerFailure | internal/peer/consume.go:109-115 | A 502 before a RESPONSE came, a broken connection after. |
| Consume.RelayBack | internal/peer/consume.go:67-105 | The loop over net/http's response writer shows the application what the specification says, for every feed and failure. |
| Consume.Handle | internal/peer/consume.go:17-62 | Every branch of a visit, from a refused upgrade to a job cancelled mid-answer: what the application is shown and what the server is sent. |
| Visits.VisitExactly | internal/peer/consume.go:17-62 | Every visit by literal status and reason: 501, 502 or 503 when there is no job, and the job sent otherwise, with a CANCEL behind it if and only if the application is given up on and the connection takes one more message. |
| Visits.AnswerEnds | internal/peer/consume.go:67-115 | By position: every answer is over at the first message that is neither RESPONSE nor a BODY the application takes, or where nothing more has come; and what is there decides whether it is finished with its trailers last, aborted, cancelled or still open. |
| Visits.GivenUpExactly | internal/peer/consume.go:72-94 | The consumer gives the application up if and only if a BODY is refused, for a broken connection or a status without a body, or the application left while nothing more had come. |
| Visits.FailedAtOnce | internal/peer/consume.go:107-115 | A FAIL before anything else, or the loss of the server, is told as a 502 with its reason in plain text, counted. |
| Headers.CanonicalTwice | internal/peer/headers.go:59-74 | Canonicalising a name twice is canonicalising it once. |
| Headers.CanonicalExactly | internal/peer/headers.go:59-74 | Octet for octet: in a token (section 5.6.2 of RFC 9110) letters that come first or behind a hyphen are capitals and others are not; anything else is left alone. |
| Headers.OrderedIsUnique | internal/peer/headers.go:44 | There is one way to put a set of names in order. |
| Headers.OrderDoesNotMatter | internal/peer/headers.go:37-44 | The names come out the same whatever order the map is ranged over. |
| Headers.NamedByConnection | internal/peer/headers.go:78-89 | The nested loops over values and tokens gather the set of names that Headers.ConnectionHeadersExactly describes. |
| Headers.ConnectionHeadersExactly | internal/peer/headers.go:78-89 | By position: a name is listed if and only if some value of Connection has between two commas or ends a non-empty text between Unicode white space whose canonical form it is. |
| Tokens.TrimmedExactly | internal/peer/headers.go:82-83 | What trimming leaves is the one text with no white space at its ends and nothing but white space around it. |
| Tokens.SplitExactly | internal/peer/headers.go:81 | The parts of a value are exactly its stretches without a comma between commas and ends. |
| Headers.FromHttpInOrder | internal/peer/headers.go:31-56 | Whatever order the map is ranged over in, the loops give the same wire headers. |
| Headers.ToHttpInOrder | internal/peer/headers.go:59-74 | The loop gives each kept name all its values in the order they came. |
| Headers.ThereAndBack | internal/peer/headers.go:31-74 | A hop gives back the header less hop-by-hop, Connection-listed (section 7.6.1 of RFC 9110), dropped and valueless names, values in order, if and only if the names that travel are spelt canonically. |
| Headers.AfterHopExactly | internal/peer/headers.go:13-56 | Name by name: a header survives if and only if it has values, is none of the nine literal hop-by-hop names, is not told to be left out and is not listed by Connection; and with just its values. |
| Headers.ToHttpExactly | internal/peer/headers.go:59-74 | A name comes back if and only if some wire header has it canonically and it is neither hop-by-hop nor left out. |
| Headers.OneMore | internal/peer/headers.go:65-72 | One more wire header appends its value behind those of its canonical name, or changes nothing if that is left out. |
| Headers.SentInOrder | internal/peer/headers.go:31-56 | On the wire names ascend octet by octet, and each has exactly its values in their order. |
| Headers.SecondHop | internal/peer/headers.go:31-74 | A second hop changes nothing. |
| Requests.IsUpgrade | internal/peer/headers.go:93-105 | The nested loops, with their early return, decide Upgrades. |
| Requests.UpgradesExactly | internal/peer/headers.go:93-105 | By position: a request is an upgrade if and only if its Upgrade header begins with a value that is not empty, or some value of Connection has the seven letters of upgrade, in any case, between white space between commas. |
| Requests.LengthTravels | internal/peer/consume.go:141-150 | On the wire there is one Content-Length whose digits read back as the length of the body that is sent, whatever the application wrote; none only for no body and nothing written. |
| Requests.UpstreamGets | internal/peer/provide.go:70-78 | If the names that travel are spelt canonically, the upstream is given exactly what survives a hop of what the application wrote, less Content-Length, and an empty User-Agent if it wrote none. |
| Requests.RequestHeadersInOrder | internal/peer/consume.go:141-150 | Whatever order the map is ranged over in, the same headers travel. |
| LastHop.AlwaysAResponse | internal/peer/consume.go:67-115 | Whatever comes in, in whatever order, the application sees a proper response: one final status line, only informational ones before it, an abort only behind it; and a status line whenever it is answered. |
| LastHop.PageMeans | internal/peer/consume.go:107-115 | What a proper response is, event by event. |
| LastHop.ShownExactlyAsGiven | internal/peer/consume.go:67-115 | What is shown is the answer that came, message for message, or a made-up 502 of a job that failed before its answer began: if and only if what came keeps the order of an answer and its status is a final one, with no body where a response may have none. |
| LastHop.ShowsABeginning | internal/peer/consume.go:67-115 | Wherever the application's connection breaks, it has seen a beginning of that. |
| LastHop.InformationalShowsTwo | internal/peer/consume.go:82-85 | A RESPONSE of 103 shows two status lines, the second a 200 nobody sent. |
| LastHop.ReasonInTheBody | internal/peer/consume.go:86-100 | BODY with no RESPONSE and then FAIL is a finished 200 with the reason spliced into its body. |
| LastHop.SecondResponseLost | internal/peer/consume.go:82-85 | A second RESPONSE is lost; the application keeps the status of the first. |
| LastHop.WholeAnswerShown | internal/peer/consume.go:82-97 | An answer that ends in END is shown whole and finished: head first, every body octet in order, trailers last. |
| EndToEnd.RequestArrives | internal/peer/consume.go:46-59 | From application to upstream: what the server collects of what the consumer sent, and any provider of what the server then sends it, is not whole yet or the very body and trailers the application gave, under its own REQUEST. |
| EndToEnd.EveryVisitIsAnswered | internal/peer/consume.go:17-62 | Whatever becomes of a request, the application is shown a proper response if it is answered at all, and the server is sent the job in order with a CANCEL last and only when the consumer gave up on it. |
| EndToEnd.SendsShowable | internal/peer/provide.go:85-95 | What an HTTP client returns has a final status, and no body behind a 204 or 304. |
| EndToEnd.OneStatusLine | internal/peer/consume.go:67-115 | Provider, relay and consumer composed: through any number of real providers and wherever connections broke, the application is shown a beginning of the one answer its job got, as it is, and all of it if its own connection lasts; only a 101 with a body behind it is cut. |
| EndToEnd.OneStatusLineUnderAttack | internal/peer/consume.go:67-115 | The same with every hop's records dropped, cut, reordered, repeated and altered by the network. |
| EndToEnd.AnswerArrives | internal/peer/consume.go:67-105 | From upstream to application, through any number of lost providers: the status, the header less what belongs to one connection, every body octet in order, the trailers. |
| EndToEnd.ProvidersAreReliable | internal/peer/provide.go:20-116 | What provide sends, whatever its upstream does, is all the relay relies on. |
| EndToEnd.InboxUnderAttack | internal/peer/conn.go:264-298 | Whatever happens to the records of a connection, a job's inbox gets a prefix of what was sent for it. |
| EndToEnd.AnswerSurvivesLostProviders | internal/peer/server.go:208-264 | Providers lost before they answered leave no trace: the first answer given is relayed whole. |

## Left out

- Pool.Service.Acquire: is one service's pool; the map from a service's name to its pool, made on first use, is not modelled.
- Pool.Service.Abandon: is one call with nobody between its two sections; the interleavings in between are the business of PoolRuns, whose steps are values.
- Relay.RelayJob: a job whose pool never answers again ends as pending; the loop's termination is not claimed, and the code can pick a dead provider again until it is removed.
- Relay.DispatchTo: a job's share of a provider's connection is an object of its own, so two jobs whose messages share one connection are independent here, and a CANCEL is the last message of its own job only.
- Jobs.Link.Send: the deadline and the lock of a write are one atomic send, and a connection that failed one takes nothing afterwards, which the code leaves to the socket.
- Intruder.SecureSession: every transport key has one writer, as two honest ephemerals are never the same; that is assumed of the world, not derived.
- Provide.RunUpstream: the HTTP request to the upstream is left to a parameter, what the upstream answered, and so is the wording of a FAIL; `Requests.UpstreamGets` says with which headers it is made.
- Consume.Handle: what arrives is left to a parameter, a refused upgrade or the REQUEST; `Requests` says which headers make an upgrade and which travel, and the target is taken as it is.
- Consume.Application.Write: net/http also refuses a body beyond its own Content-Length and swallows the body of a reply to HEAD; both are left to the number of writes the connection takes. The headers net/http adds of its own are not in the model, nor that it drops invalid header names, replaces newlines in values and closes a connection whose body is shorter than its Content-Length.
- Inbox.JobQueue.Next: the channels a queue makes are numbered instead of allocated; when several things happen at once while a reader waits, the reader sees them one after another.
- JobTable.Conn.NewJob: ids are unbounded; the 64-bit counter would wrap after 2^63 jobs on one connection.
- Noise.DhCommutes: X25519, SHA-256, HKDF and ChaCha20-Poly1305 are symbolic; small-order points fail, every other pair of keys agrees.
- Decode.Decoder.Next: the scratch buffer the decoder reads fields into is not modelled; what it returns is a value of its own.
- Several goroutines using one record stream, cipher or codec at once: the code forbids it.
- The cause of a cancelled context, which only words a FAIL.
- Sockets, deadlines, reconnecting, PING and PONG timing, logging, snapshots, signals and the programs around them.
- The configuration file: it is read and checked but never written, so only easy members would come of it.
- That the pool holds only the providers of live peers, and that a provider's own slot count follows the server's: the code keeps neither.
