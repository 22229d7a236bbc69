# Verified models of zeronat

zeronat is an encrypted reverse tunnel: a client behind NAT dials a public server and carries
TCP, UDP and Ethernet traffic over Noise-encrypted streams and datagrams. Under its sockets and
tasks sit several state machines. This project models them in Dafny and proves what they promise,
over every input, every run and every reachable state. `dafny verify dfyconfig.toml` checks all of it.

| file | models |
|---|---|
| Base, Crypto, Utf8, Secret | bytes, the laws asked of an AEAD, UTF-8 validity, hex secrets and seed derivation |
| ReplayWindow, Datagram | the 128-nonce replay bitmap, sealed datagrams, the two-ended network world |
| NoiseStream | the framed stream writer and the cancel-safe reader |
| Handshake, HandshakeTokens | the symmetric state, XX and NNpsk0; the token patterns and the bytes they come to |
| Blake2s | the streaming hash, keyed hashing and HMAC |
| ExitRoutes, ExitRouteSafety, ExitRouteLimits, ExitRouteLookup, ExitGuards | exit-mode routes over a kernel table, as runs, as what they do with each address, and as guard objects |
| Switch | the learning switch behind a shared TAP or TUN device |
| Session, SessionSteps, SessionDelivery | a peer session's maps, guards and id spaces, whole operations at a time and lock by lock, and what its lanes carry |
| AdminWire, AdminLayout | the local admin protocol's byte codec and its table of fields |
| Config, ConfigCodec, ConfigFormat, ConfigText | the client config: validation, parsing and serializing as tables, which keys are written, and the text |
| ActiveTarget, SwitchLoop, SwitchTrace | what a client should be running, its claims, the cancel-permit protocol with the reconnect loop, and the step sequences that loop may take |
| Control, ControlEffects, ControlSafety, ControlLimits, AdminDispatcher | the admin mutations as functions, what each asks and does, what every sequence of them keeps, inputs on which its edges show, and the dispatcher over the shared objects |
| Forwards, Servers, Ordering | the shared forward maps and server profiles, the stable sort and the in-place permutation |
| Calendar | civil dates from day numbers |
| Tunnel | handshake, hash and datagrams put together |

Code that updates fields, maps or arrays in place is a class or a method with loops, proved against
a function of the old state; the run results are then proved of that function. Pure code is
functions and lemmas.

## How the outside world appears

- The AEAD, the hash, Diffie-Hellman and the BLAKE2s compression function are parameters. The laws
  asked of them are stated once: opening undoes sealing, only sealed text opens, Diffie-Hellman
  commutes, lengths are as published. `Crypto.AeadLawsAreConsistent` and
  `Handshake.SuiteLawsAreConsistent` exhibit instances, so the laws do not contradict each other.
  "Only sealed text opens" is idealised: in the datagram world it says that a packet on a lane that
  opens was sealed by an endpoint.
- The network is a choice of arrivals at each step; a stream is a byte sequence handed out in reads
  of any size; a `recv` future dropped between reads is a call that stops early.
- The kernel's route table is a set of routes, and any bring-up step may be refused.
- Each locked section of the client is one step. The reconnect loop is a machine over its program
  points, with every answer of the outside world an argument of a step; mutators interleave freely.
- Admin exchanges come one at a time, and each may be given up while its save is under way.
- The client's seed derivation is a parameter, so the config round trip holds for any derivation.

## Where the code and its promises part

Each is a proved result, with its exact condition or an input that shows it, not a change to the
model:

- `add_server` never compares a new secret with the peer secret although `validate` refuses the pair
  (`AddServerBootsIff`, `PeerSecretIsAccepted`). The runs of `EveryRunStaysGood` add only secrets
  that differ.
- A mutation can leave a config whose next boot is refused for contention, though it passes
  `validate` (`NextBootIff`, `SavedConfigDoesNotBoot`).
- What an accepted mutation does to the running body comes after its save, so an exchange that times
  out there can leave a forward declared and not served (`ServedIff`, `TimedOutAddIsNotServed`).
- `stop_pppoe` installs its fallback without admission (`StopSkipsAdmission`,
  `DeviceFallbackContends`); the two the dispatcher gives it always pass (`PlainFallbacksPass`).
- A `ConvGuard` erases its key whoever's it is (`DropTakesSharedKey`, `ReopenedAfterCloseIsLost`).
- Port ids wrap at 2^32, so a held handle's drop can take a later client's port (`DropSparesIff`,
  `WrapIsReached`).
- The conv counter, said to stay in the low half, wraps too and meets the setup range after 2^31 - 1
  ids (`CounterMeetsSetupIff`); and a peer can open the id the counter is about to give out, which
  nothing checks (`CounterIsUnheldUnlessBrought`, `PeerTakesTheCountersId`).
- A lane is inserted before it is counted, so a session can look idle while it holds one
  (`IdleIsEmptyIff`, `InsertedLooksIdle`).
- The stream counters are not checked, unlike the datagram one; they wrap as a release build's do,
  and nonces come round after 2^64 frames (`NoncesRepeatIff`).
- A default route at a priority above 32766 cannot be named by the ioctls, which saturate
  (`LifeRestores`, `TwinDefault`, `GradedIff`, `NamesakeDefaults`).
- A refused pin move leaves the halves unpinned until a later redial succeeds or the drop has
  finished (`RedialPinnedIff`, `UnpinnedBetweenRedials`, `PinnedDropIff`, `UnpinnedDrop`).
- The config's integers are said to reject a sign; a plus is taken (`SignIsTakenIff`).
- A switch label over 256 bytes is sent but dropped by its receiver (`FreshSealIsDelivered`).

## Model

| member | source | states |
|---|---|---|
| ReplayWindow.MarkRefines | src/noise.rs:855-883 | one `check_and_mark` against a memory of every accepted nonce: accepted iff new and less than 128 behind the highest, refused as a replay only if accepted before, refused as too old iff an accepted nonce is 128 or more ahead, and the bitmap afterwards still has bit i set iff highest - i was accepted |
| ReplayWindow.WindowAcceptsWhatTheReferenceAccepts | src/noise.rs:848-884 | for every sequence of nonces the 128-bit window and the remember-everything reference give the same answers |
| ReplayWindow.ShiftLeftBits | src/noise.rs:862-871 | after the window advances by n, bit i is what bit i - n was, and bits shifted past 128 are gone |
| ReplayWindow.ReplayFilter.CheckAndMark | src/noise.rs:855-883 | the field-updating form: the verdict is the reference's, the set it stands for gains exactly the accepted nonce, and a refusal changes nothing |
| Datagram.EveryRunDeliversWhatWasSentOnce | src/dgram.rs:77-162 | over a network that drops, duplicates, reorders and injects: in every run each end delivers only frames the other end sealed, unchanged in kind and payload, no two under one nonce, and no key ever seals twice under one nonce, the last u64 value never being used |
| Datagram.FreshSealIsDelivered | src/dgram.rs:118-162 | the converse: a genuine packet at the head of its lane is delivered exactly when its nonce is new to the reference window and it is no label over 256 bytes |
| Datagram.GenuineArrives | src/kcp.rs:781-788 | the packet of any sealing may arrive at any time and lands on its lane as the sealed body |
| Datagram.FreshFrameGetsThrough | src/dgram.rs:77-162 | at any moment of any run, a frame sent and brought at once to an empty lane is delivered whatever went before, save an overlong label |
| Datagram.UnauthenticMovesNothing | src/noise.rs:948-961 | a short or unauthentic body leaves the window, the counters and the deliveries as they were |
| Datagram.PacketRoutes | src/kcp.rs:781-788 | a framed packet reaches the lane of its own tag whole, and no other lane |
| Datagram.RoutedIff | src/kcp.rs:781-788 | a lane gets exactly what follows the class byte and its own tag, be it nothing |
| Datagram.ClassifyInvertsPlaintext | src/dgram.rs:118-135 | reading a decrypted body gives back the kind and payload that were framed, save a label over 256 bytes, which is dropped |
| Datagram.ClassifyIff | src/dgram.rs:118-162 | for every decrypted body: a zero and a payload is data, a one a keepalive, a two and at most 256 bytes of valid text a label, and nothing else is taken |
| Datagram.PacketBytes | src/dgram.rs:77-96 | a packet is the class byte, the tag and the nonce high byte first, and the kind and payload sealed under that nonce |
| Datagram.RecvIsReceiveSteps | src/dgram.rs:118-162 | one `recv` is a run of single-packet steps of the two-ended world, with at most the one frame it answers added, so the run results hold of the loops |
| Datagram.RecvDataIsReceiveSteps | src/dgram.rs:139-147 | one `recv_data` is a run of those steps too: it adds frames without a payload and then the one it answers |
| Datagram.DataLaneByRecv | src/dgram.rs:139-147 | `recv_data` answers as a loop over `recv` that skips frames without a payload would |
| Datagram.StatelessNoise.SealAt | src/noise.rs:919-935 | seals under the current nonce and advances it, leaving bytes before `at` alone; refuses at the top of the u64 range without sealing or moving the counter |
| Datagram.StatelessNoise.OpenInPlace | src/noise.rs:948-961 | the window moves only for an authentic body, which is answered only if the window accepts it |
| Datagram.DgramTx.Emit | src/dgram.rs:77-95 | the packet sent is the class byte, tag, nonce and sealed kind-and-payload, one per accepted nonce; an exhausted counter sends nothing |
| Datagram.DgramTx.Transmit | src/dgram.rs:59-73 | each of the three sends emits the packet of its own frame, as the world model's send step does |
| Datagram.DgramRx.Recv | src/dgram.rs:118-135 | answers the first queued packet that yields a frame, consuming exactly the packets up to it |
| Datagram.DgramRx.RecvData | src/dgram.rs:139-147 | answers the payload of the first frame `recv` would answer that carries one, by the two lemmas above |
| Datagram.DgramRx.Next | src/dgram.rs:152-162 | drops bodies until one opens to something, leaving it decrypted in place |
| NoiseStream.WrittenCallsAreRead | src/noise.rs:787-815 | for every list of `send` and `probe` calls the bytes written decode to the 65519-byte chunks in order, and the chunks join to the bytes given |
| NoiseStream.FrameBytesAre | src/noise.rs:806-815 | a frame is the sealed length in two bytes, the high one first, and the sealed chunk |
| NoiseStream.ChunksAreFull | src/noise.rs:788-794 | every chunk of a send but the last is the largest a frame holds |
| NoiseStream.ReceiveUnderSelect | src/noise.rs:724-776 | for every split of the stream into reads and every sequence of `recv` futures dropped at any point: always a prefix of the chunks under their own nonces, with the rest still readable; and all of them once the stream has closed, or once as many futures as there are chunks and unread bytes saw one read each, or as many as there are chunks lived through the whole stream |
| NoiseStream.Carry | src/noise.rs:724-815 | a writer given any `send` and `probe` calls, then a reader of its stream cut into any reads with futures dropped anywhere: after the close or enough attempts the reader has exactly the chunks of the calls, whose bytes are the bytes sent |
| NoiseStream.WriteAll | src/noise.rs:787-815 | any list of calls on the writer appends one run of frames under consecutive nonces |
| NoiseStream.NoncesRepeatIff | src/noise.rs:746-815 | two frames of a stream share a nonce exactly when a multiple of 2^64 frames lie between them, since neither counter is checked |
| NoiseStream.Attempt | src/noise.rs:746-775 | one `recv`, however it ends, takes the next chunk whole or leaves the stream intact; a dropped one has read at least a byte per read it saw, so one offered more reads than there are bytes is not dropped; written text cannot fail to decrypt and end of stream means nothing is left |
| NoiseStream.NoiseReader.Fill | src/noise.rs:746-775 | resumable at any byte: bytes held so far plus bytes unread never change except for a whole frame, which is opened under the nonce of its position |
| NoiseStream.NoiseReader.FillLen | src/noise.rs:746-753 | reads the two length bytes across any number of reads without losing any when dropped between them |
| NoiseStream.NoiseReader.FillBody | src/noise.rs:754-766 | the same for the frame body |
| NoiseStream.NoiseWriter.Send | src/noise.rs:788-794 | appends the frames of the chunks under consecutive nonces; every frame length fits its u16 |
| NoiseStream.NoiseWriter.Probe | src/noise.rs:800-803 | appends one empty frame under the next nonce |
| NoiseStream.NoiseWriter.Frame | src/noise.rs:806-814 | appends one length-prefixed sealed chunk and steps the nonce |
| Handshake.XxCompletes | src/noise.rs:370-478 | for all keys, prologues and payloads both sides of XX finish with equal ck, h, k and n, all three payloads recovered, each holding the other's public identity, and mirrored transport keys (Noise revision 34, sections 5.2, 5.3 and 7.5) |
| Handshake.MessageOneAgrees | src/noise.rs:397-412 | after message one both sides hold one symmetric state and the payload arrived |
| Handshake.MessageTwoAgrees | src/noise.rs:415-438 | the same after message two, the initiator now holding the responder's static key |
| Handshake.MessageThreeAgrees | src/noise.rs:441-458 | the same after message three, the responder now holding the initiator's static key |
| Handshake.AcceptedTwoWasWritten | src/noise.rs:427-438 | the converse: a message two the initiator accepts is byte for byte what the holder of the keys it names writes |
| Handshake.AcceptedThreeWasWritten | src/noise.rs:450-458 | the converse for message three |
| Handshake.NnCompletes | src/noise.rs:481-576 | for all keys, prologues and payloads NNpsk0 leaves both sides in one state after each message, both payloads recovered and transport keys mirrored (Noise revision 34, section 9) |
| HandshakeTokens.XxOnTheWire | src/noise.rs:370-478 | for all keys, prologues and payloads the three XX messages are, byte for byte, the ephemerals, the static keys and the payloads sealed under the keys, nonces and transcript hashes the specification gives; both sides come to the chaining key of `ee`, `es` and `se` in that order, written from HMAC alone, and to its transport keys |
| HandshakeTokens.NnOnTheWire | src/noise.rs:481-576 | the same for NNpsk0, whose secrets are the pre-shared key, both ephemerals and `ee` |
| HandshakeTokens.OneFollowsItsTokens | src/noise.rs:397-412 | writing and reading message one is running its token list, for every message, malformed ones included |
| HandshakeTokens.TwoFollowsItsTokens | src/noise.rs:415-438 | message two is `e, ee, s, es`, each side taking its own half of every token |
| HandshakeTokens.ThreeFollowsItsTokens | src/noise.rs:441-458 | message three is `s, se` |
| HandshakeTokens.NnOneFollowsItsTokens | src/noise.rs:481-531 | NNpsk0's first message is `psk, e`, the ephemeral mixed into the key as well |
| HandshakeTokens.NnTwoFollowsItsTokens | src/noise.rs:492-531 | its second is `e, ee` |
| HandshakeTokens.HkdfIsItsOutputs | src/noise.rs:204-213 | the three outputs are each keyed by the extracted key over the one before and its number |
| HandshakeTokens.PskReaches | src/noise.rs:299-305 | a pre-shared key's outputs go to the chaining key, the transcript and the cipher key, in that order |
| HandshakeTokens.NameIsPadded | src/noise.rs:270-286 | a protocol name that fits a hash is padded with zeros; longer ones, as both in use are, are hashed |
| Handshake.DecryptInvertsEncrypt | src/noise.rs:307-329 | decrypt-and-hash undoes encrypt-and-hash from the same state and both end in the same next state, keyed or not |
| Handshake.SymmetricState.Expand | src/noise.rs:204-213 | the HKDF loop gives the first two or three outputs of the chain |
| Handshake.SymmetricState.MixInHash | src/noise.rs:288-290 | the field-updating form of the transcript hash step |
| Handshake.SymmetricState.MixInKey | src/noise.rs:292-297 | the chaining key and cipher key step, the nonce back at zero |
| Handshake.SymmetricState.MixInKeyAndHash | src/noise.rs:299-305 | the pre-shared-key step of section 9 |
| Handshake.SymmetricState.Encrypt | src/noise.rs:307-317 | the field-updating form has the state and ciphertext the symmetric-state laws are proved of |
| Handshake.SymmetricState.Decrypt | src/noise.rs:319-329 | the same for decryption; a failed open leaves the state alone |
| Handshake.XxHandshake.WriteMessageOne | src/noise.rs:397-403 | the object's message and state are those of the agreement results |
| Handshake.XxHandshake.ReadMessageOne | src/noise.rs:405-412 | as above; a short message is refused |
| Handshake.XxHandshake.WriteMessageTwo | src/noise.rs:415-425 | as above |
| Handshake.XxHandshake.ReadMessageTwo | src/noise.rs:427-438 | as above, setting the remote static key |
| Handshake.XxHandshake.WriteMessageThree | src/noise.rs:441-448 | as above |
| Handshake.XxHandshake.ReadMessageThree | src/noise.rs:450-458 | as above, setting the remote static key |
| Handshake.XxHandshake.IntoTransport | src/noise.rs:475-477 | the keys are the split of the final state for this side |
| Blake2s.DigestIsReference | src/hash.rs:25-67 | the lazily buffered digest of key block and message is the block-by-block one of section 3.3 of RFC 7693, for empty, keyed-empty and exact multiples of 64 bytes alike |
| Blake2s.IvIsRootsOfPrimes | src/hash.rs:5-14 | the initial words are the fractions of the square roots of the first eight primes |
| Blake2s.ParametersAreFirstWord | src/hash.rs:25-27 | the lengths and the fan-out go into the first word alone |
| Blake2s.FirstWords | src/hash.rs:25-27 | that word for the two shapes in use |
| Blake2s.OutputByte | src/hash.rs:62-65 | digest byte 4i + j is byte j of word i, the low byte first |
| Blake2s.HashKeyed | src/hash.rs:25-67 | for every key, output length and partition into `update` calls the digest is the RFC 7693 digest of the concatenation |
| Blake2s.HashParts | src/hash.rs:127-133 | the unkeyed hash of parts is the hash of their concatenation |
| Blake2s.HmacParts | src/hash.rs:136-158 | over any parts, equal to HMAC of section 2 of RFC 2104 on their concatenation, for keys up to and over a block, the two pads being one array edited in place |
| Blake2s.Hasher.Update | src/hash.rs:42-54 | the input absorbed grows by exactly the data, the chaining value and counter staying those of the whole blocks compressed so far |
| Blake2s.Hasher.Finalize | src/hash.rs:57-66 | the digest of everything absorbed |
| Blake2s.AbsorbedFlush | src/hash.rs:42-54 | compressing the full buffer moves the state one block along the chain |
| Blake2s.PadIsFlipped | src/hash.rs:145-148 | the array left by the xor loop over a key shorter than a block is the inner pad of the zero-padded key |
| Blake2s.OuterPad | src/hash.rs:154-156 | flipping the inner pad in place, without the key, yields the outer pad of the same key |
| Ordering.Order | src/admin.rs:504-514 | for every strict weak order, a permutation that is sorted and keeps ties in index order |
| Ordering.StableOrderIsUnique | src/admin.rs:504-514 | there is only one such permutation, so the result is fully determined |
| Ordering.Permute | src/admin.rs:518-532 | for every permutation, using swaps alone, position i ends with the element that was at order[i] |
| Ordering.WalkCycle | src/admin.rs:518-532 | one cycle is walked to its end, marking at least its start and moving only what the cycle covers |
| Calendar.CivilIsTheDay | src/logging.rs:30-41 | for every day number, before or after 1970, a valid proleptic Gregorian date whose day count is that number |
| Calendar.CivilInvertsDayNumber | src/logging.rs:30-41 | conversely every valid date comes back from its own day count |
| Calendar.ConsecutiveDays | src/logging.rs:30-41 | consecutive day numbers map to consecutive dates across month, leap-year and 400-year ends |
| Calendar.UtcFieldsNameTheSecond | src/logging.rs:21-27 | the six rendered fields are in range and name exactly that second |
| ExitRouteSafety.EveryTableIsSafe | src/exitroute.rs:242-483 | in every table of bring-up, strict bring-up, redials, unwind and drop, whatever steps are refused, IPv4 is covered by a default or by both halves, and no captured default an ioctl can name is present while a better one is missing |
| ExitRouteLookup.EveryAddressIsRouted | src/exitroute.rs:20-23 | so in every such table every IPv4 address is matched by a route, prefix by prefix |
| ExitRouteLookup.StandingSetCarriesAll | src/exitroute.rs:1-7 | while a set stands, redials included, every IPv4 address has a route into the tun device, and no default is ever the longest match |
| ExitRouteLookup.StrictSetStopsV6 | src/exitroute.rs:9-14 | while a strict set stands every IPv6 address has a route to loopback longer than any default |
| ExitRouteLookup.HalvesSplit | src/exitroute.rs:20-23 | of the two halves exactly one matches an address, and it leads into the tun device without a gateway |
| ExitRouteLookup.HalvesSplit6 | src/exitroute.rs:26-29 | the same for IPv6 |
| ExitRouteLookup.PinMatchesItsAddress | src/exitroute.rs:79-102 | a pin matches its own address and no other, by way of the uplink it was planned on |
| ExitRouteLookup.PinKeepsTheServer | src/exitroute.rs:1-7 | a table with the pin chooses a host route for the server, and for any other address what it would choose without the pin |
| ExitRouteLookup.PinKeepsItsUplink | src/exitroute.rs:69-77 | through any redials the pin is for the latest address and leads by the interface and gateway it was planned on |
| ExitRouteLookup.CaptureNamesItsRoute | src/route.rs:41-47 | a captured default stands for the very route it was read from, gateway or none |
| ExitRouteLimits.GradedIff | src/exitroute.rs:359-398 | for the defaults one read of the table captures, at any priority: no table of any strict life holds a worse one while a better one is missing, exactly when the worst one fits an ioctl or the ioctls for it name nothing in the table or an IPv6 half was there already |
| ExitRouteLimits.NamesakeDefaults | src/route.rs:197-219 | a concrete pair of defaults, at priorities 40000 and 32766, on which that order fails |
| ExitRouteSafety.NoHalfWithoutPin | src/exitroute.rs:242-300 | no table of bring-up, unwind or drop holds a half of the guard's own without the server pin, given the last redial was not refused; the tables of the redials themselves are the next rows |
| ExitRouteLimits.RedialPinnedIff | src/exitroute.rs:263-272 | after each redial of a standing set its halves are pinned to the server it dialled exactly when that pin was not refused, or was in the table already, or the halves were not the set's own |
| ExitRouteLimits.RedialTables | src/exitroute.rs:263-272 | every redial table is one of those, but for one per change of address: that between the old pin's removal and the new one's addition |
| ExitRouteLimits.UnpinnedBetweenRedials | src/exitroute.rs:263-272 | a concrete pair of redials, refused then accepted, between which the set stands unpinned |
| ExitRouteLimits.PinnedDropIff | src/exitroute.rs:263-299 | without that assumption: a standing set's drop keeps its halves pinned throughout exactly when the pin was in the table before the drop or the halves left for later were not its own |
| ExitRouteLimits.RefusedMoveUnpins | src/exitroute.rs:263-272 | after a refused move to a new address the drop passes through a table with a half and no pin |
| ExitRouteLimits.UnpinnedDrop | src/exitroute.rs:263-272 | a concrete table and redial on which it happens |
| ExitRouteSafety.LifeLeaves | src/exitroute.rs:242-300 | for every initial table, refused step and redial sequence, the last table is the initial one less the pins, halves and IPv6 halves programmed, plus the captured defaults put back |
| ExitRouteSafety.LifeRestores | src/exitroute.rs:401-411 | it is the initial table less the guard's own routes exactly when every default put back was there |
| ExitRouteSafety.ExactDefaultsAreThere | src/exitroute.rs:438-455 | which is so whenever the defaults came from the table at priorities an ioctl can carry |
| ExitRouteSafety.UnnameableDefaultIsDuplicated | src/route.rs:197-219 | otherwise strict bring-up fails and the unwind leaves a default the table never held |
| ExitRouteSafety.TwinDefault | src/route.rs:197-219 | for instance a default at priority 40000 gains a twin at 32766 |
| ExitRouteSafety.StrictNeedsAll | src/exitroute.rs:359-373 | strict bring-up succeeds only if every route its deletions name is in the table |
| ExitRouteSafety.DialHolds | src/exitroute.rs:263-272 | an accepted redial leaves the new address's pin in and a changed address's old pin out |
| ExitGuards.Session | src/exitroute.rs:461-483 | a whole life run on the guard objects passes through exactly the tables the results above speak of, with the captured defaults sorted worst first |
| ExitGuards.SortWorstFirst | src/exitroute.rs:359-373 | the in-place sort is worst metric first and stable: defaults of one metric keep their order |
| ExitGuards.SameByMetricHolds | src/exitroute.rs:359-373 | the stable sort loses no default and invents none |
| ExitGuards.ExitRouteGuard.BringUp | src/exitroute.rs:242-255 | pin first, an existing route counted as held; a refused step unwinds what was named, halves first |
| ExitGuards.ExitRouteGuard.AssertPin | src/exitroute.rs:263-272 | success means the pin for `server` is in the table and held by the guard |
| ExitGuards.ExitRouteGuard.Release | src/exitroute.rs:291-300 | drop sweeps halves, then pin, ignoring answers |
| ExitGuards.StrictRouteGuard.BringUp | src/exitroute.rs:359-373 | IPv6 halves in, then defaults out worst first; a failure sweeps the same set back |
| ExitGuards.StrictRouteGuard.Release | src/exitroute.rs:401-411 | drop puts the defaults back best first, then takes the IPv6 halves off |
| ExitGuards.ExitRouteSet.BringUp | src/exitroute.rs:461-474 | base then strict; a strict failure takes the base down as well |
| ExitGuards.ExitRouteSet.Release | src/exitroute.rs:413-421 | strict goes before base |
| ExitGuards.PinGuard.BringUp | src/exitroute.rs:321-333 | all pins or none: success adds every pin and fails exactly at the first refused one, leaving the table less the pins it got to |
| ExitGuards.PinGuard.Release | src/exitroute.rs:336-344 | drop leaves the table less the pins |
| Switch.EveryRunKeepsTheTable | src/bridge.rs:896-909 | in every run at most 4096 stations are bound, none a group or zero address, and a TUN switch has learned nothing and holds at most one port; whether it switches L2 frames and joins its ports stays as made |
| Switch.InboundReaches | src/bridge.rs:690-851 | for every destination, source and payload, the frame goes to the live owner of its first six bytes alone, and to every port when that address is a group one or no attached port owns it, a stale owner included; a port takes it at the end of its queue while that holds less than 256 |
| Switch.ShortFrameFloods | src/bridge.rs:690-694 | a frame too short for its header goes to every port |
| Switch.FloodReaches | src/bridge.rs:862-880 | a flood offers the frame to exactly the other live ports and evicts exactly the dead ones |
| Switch.NoReturnToSender | src/bridge.rs:950-977 | no egress frame is offered to the port it came from, whatever was learned |
| Switch.EgressGoesOneWay | src/bridge.rs:933-977 | on a port-to-port switch a unicast frame goes to the live other port that owns its first six bytes or to the device, one and never both; a group frame to all others and the device |
| Switch.EgressTeaches | src/bridge.rs:896-909 | an egress frame binds its source, bytes six to eleven, to the port it came from if that is a unicast address and known or there is room under 4096; no other station moves but those of ports found dead |
| Switch.InboundTeaches | src/bridge.rs:914-919 | a frame from the device unbinds its source and no other; a sole port's frames teach nothing |
| Switch.FrameNamesItsStations | src/bridge.rs:690-699 | a frame of at least fourteen bytes names its first six as destination and the next six as source |
| Switch.PlainEgressIsTheDevices | src/bridge.rs:933-942 | without port-to-port forwarding egress reaches the device alone |
| Switch.HeardThenReached | src/bridge.rs:896-909 | a station heard behind a port is then reached through that port alone |
| Switch.MovedThenFlooded | src/bridge.rs:914-919 | until it is heard on the device's side, after which frames for it flood |
| Switch.DropSparesIff | src/bridge.rs:1153-1157 | at any moment, however many attaches there have been, a handle's drop spares a later port exactly when their attaches are no multiple of 2^32 apart |
| Switch.DropSparesOthers | src/bridge.rs:1153-1157 | and a port it spares keeps its queue and every station bound to it |
| Switch.DropMeetsItsWrap | src/bridge.rs:1009-1057 | any number of whole turns later it takes whoever has its id |
| Switch.WrapIsReached | src/bridge.rs:1009-1057 | a run on which the promise fails: 2^32 - 1 clients come and go while the first handle is held, and its drop takes the next client's port |
| Switch.DropLeavesNothing | src/bridge.rs:884-890 | a drop leaves no port and no station under its id |
| Switch.TunServesOne | src/bridge.rs:1009-1057 | in every run of a TUN switch, however long, an attach is refused exactly while a proven client holds the slot; an admitted one is the only port, and a refused one changes no port |
| Switch.TapSwitch.ReadFrame | src/bridge.rs:764-810 | the map-updating reader pass does what the delivery results are proved of |
| Switch.TapSwitch.ForwardInboundFrame | src/bridge.rs:818-851 | the same for one parsed frame |
| Switch.TapSwitch.FloodExcept | src/bridge.rs:862-880 | offering in any order, then evicting, is one flood |
| Switch.TapSwitch.LearnAndWriteEgress | src/bridge.rs:933-942 | the egress pass, with the device written exactly when no port took the frame or it is a group frame |
| Switch.TapSwitch.ForwardEgressFrame | src/bridge.rs:950-977 | the map-updating form of the port-to-port decision |
| Switch.TapSwitch.AttachPort | src/bridge.rs:1009-1057 | refuses or admits as the run model does, under the wrapping 32-bit counter |
| Switch.TapSwitch.Learn | src/bridge.rs:896-909 | binds a unicast source on an L2 switch, a new one only below the cap |
| Switch.TapSwitch.EvictPort | src/bridge.rs:884-890 | removes the port and every station bound to it |
| Session.EveryRunIsAccounted | src/kcp.rs:420-578 | in every run of whole operations, reused keys included, `live` is the number of outstanding guards, every entry belongs to one of them, and an idle session's maps are empty |
| SessionDelivery.LanesCarryTheirOwn | src/kcp.rs:200-218 | in every run what waits in a lane was sent to that lane's own key, in that order, and never exceeds 1024 packets or 256 datagrams |
| SessionDelivery.PacketDoes | src/kcp.rs:525-558 | a packet goes to the end of its own conv's queue if there is room; one for no conv opens it under the cap and with a permit, first in its queue; nothing else moves |
| SessionDelivery.DgramDoes | src/kcp.rs:560-564 | a datagram goes to the end of its tag's queue if there is room, or nowhere |
| Session.FreshRunsReachTheirDrivers | src/kcp.rs:463-501 | with fresh keys every driver opened since the last close keeps its entry until it ends |
| Session.DropTakesSharedKey | src/kcp.rs:426-432 | a guard's drop takes another driver's entry exactly when they share map and key |
| Session.ReopenedAfterCloseIsLost | src/kcp.rs:489-501 | a concrete run: reopening an id after `close` while its first driver lives leaves the second unreachable |
| Session.PeerRunsKeepTheCap | src/kcp.rs:525-558 | packets alone never take the conv map past 256 |
| Session.CounterMeetsSetupIff | src/kcp.rs:515-523 | in every run, from any first id and whatever the peer sends, the next id is a setup conv exactly when the ids given out have carried the counter into the upper half of the 32-bit space, and the bridge's own exactly at its lower end |
| Session.CounterStaysBelowSetup | src/kcp.rs:65-69 | counting from 1, the first 2^31 - 1 ids are no setup convs, and the next one is the bridge's |
| Session.CounterIsUnheldUnlessBrought | src/kcp.rs:515-558 | in every run short of a whole turn, no outstanding conv holds the next id unless a peer's packet or a caller's choice brought that very id |
| Session.InitiatorsCounterIsUnheld | src/kcp.rs:65-69 | so where every id brought carries the setup bit, the first 2^31 - 1 ids are all unheld |
| Session.PeerTakesTheCountersId | src/kcp.rs:525-558 | an input on which it fails: a packet for conv 1 before the first `open_conv` makes both hold conv 1, and the first driver's end leaves the second unfed |
| SessionSteps.IdleIsEmptyIff | src/kcp.rs:463-507 | in every interleaving of the locked sections, `live` is the guards less the lanes inserted and not yet counted, every entry has its guard, and a session that looks idle has empty maps exactly when no entry is in that gap |
| SessionSteps.InsertedLooksIdle | src/kcp.rs:463-507 | the gap is real: a session looks idle with a conv it has just inserted |
| SessionSteps.InsertSettles | src/kcp.rs:463-488 | once the gap is counted, inserting is the whole opening of the coarser model |
| SessionSteps.CountSettles | src/kcp.rs:463-488 | and counting changes nothing of it |
| SessionSteps.WholeSettles | src/kcp.rs:420-578 | and every other step is the coarser model's own, so its results carry over |
| Session.PeerSession.RouteKcp | src/kcp.rs:525-558 | the map-updating router opens a peer's conv exactly under the cap and with a permit |
| Session.PeerSession.OpenConvFresh | src/kcp.rs:515-523 | hands out the counter's id, wraps the counter at 2^32 and opens the id |
| Session.PeerSession.RouteDgram | src/kcp.rs:560-564 | a datagram reaches the lane of its tag or no lane |
| Session.PeerSession.Spawn | src/kcp.rs:463-488 | inserts the lane, counts it and hands out its guard |
| Session.PeerSession.DropGuard | src/kcp.rs:426-432 | erases the key, whoever's it is, and counts down |
| Session.PeerSession.CloseAll | src/kcp.rs:498-501 | empties both maps and leaves the count to the guards |
| AdminWire.DecodeOfEncode | src/clientproto.rs:396-727 | every message that fits decodes from its own encoding, and with any bytes after it is refused |
| AdminLayout.EncodeKeepsTheLayout | src/clientproto.rs:397-527 | every message that fits is its tag and its table of fields, one, two and four bytes high byte first, text behind its length, lists behind their count |
| AdminWire.EncodeOfDecode | src/clientproto.rs:531-726 | every accepted byte string is the encoding of the message it decodes to, which fits |
| AdminWire.RoundTripIffFits | src/clientproto.rs:396-753 | a message survives the trip exactly when its strings and lists fit their u16 counts, its numbers their widths and its slot capability is one defined bit |
| AdminWire.TruncationIsRefused | src/clientproto.rs:531-726 | no proper prefix of an encoding decodes |
| AdminWire.TrailingIsRefused | src/clientproto.rs:531-726 | no encoding followed by more bytes decodes |
| AdminWire.EncodingsDiffer | src/clientproto.rs:397-529 | two messages that fit never share an encoding |
| AdminWire.AllForth | src/clientproto.rs:531-726 | counted lists read back whatever follows them, for any element codec that inverts |
| AdminWire.AllBack | src/clientproto.rs:531-726 | conversely a list read to its count re-encodes to the bytes it came from |
| Utf8.ValidIffText | src/proto.rs:675-686 | a byte string passes as text exactly when it spells, code point by code point in the shortest form, some sequence of Unicode scalar values |
| AdminWire.StrForth | src/proto.rs:506-510 | a string that fits and is UTF-8 reads back, leaving what follows it |
| AdminWire.StrBack | src/proto.rs:675-686 | a string read without error was UTF-8 within its count, and re-encodes to its bytes |
| AdminWire.ReadEach | src/clientproto.rs:545-613 | the cursor loop reads what the recursive list reader does, stopping at the first error |
| AdminWire.AppendEach | src/clientproto.rs:414-442 | the append loop writes what the recursive list writer does |
| AdminWire.AppendList | src/proto.rs:497-501 | a list over the u16 count is cut to its first 65535 entries, count and entries agreeing |
| AdminWire.ReadSnapshotFields | src/clientproto.rs:538-627 | the snapshot body read field by field is the snapshot the laws speak of |
| Secret.DecodeOfEncode | crates/secret/src/lib.rs:17-52 | 32 bytes come back from their hex |
| Secret.EncodeDigits | crates/secret/src/lib.rs:39-52 | two digits a byte, the high one first, letters in lower case |
| Secret.NibbleIff | crates/secret/src/lib.rs:54-61 | either case is read, and nothing else |
| Secret.NormalizeKeepsKey | crates/secret/src/lib.rs:29-31 | normalising a secret keeps the key it stands for |
| Config.Validate | src/clientcfg.rs:168-293 | the loops accept exactly the configs that meet the declarative rules: distinct names and ports, well-formed keys, no key doing two jobs, at most one autostart, consistent tun, tap and peer tables |
| Config.CheckKeys | src/clientcfg.rs:168-293 | one pass accepts exactly distinct names with good keys, and gathers the session keys |
| Config.CheckDiscovery | src/clientcfg.rs:168-293 | accepts exactly when no discovery credential is another server's session key or the peer key |
| Config.CheckSessions | src/clientcfg.rs:168-293 | accepts exactly distinct PPPoE names with at most one autostart |
| ConfigCodec.ParseOfSerialize | src/clientcfg.rs:581-733 | every config the grammar can produce is parsed back from its own file, seed-derived values left out of it and credentials awaiting the client id included |
| ConfigCodec.ParsedIsWellFormed | src/clientcfg.rs:391-567 | parsing yields only such configs |
| ConfigCodec.RoundTripIffWellFormed | src/clientcfg.rs:391-733 | so they are exactly the configs whose file parses back to them |
| ConfigFormat.FileIs | src/clientcfg.rs:581-733 | the file written for any config holds exactly these tables in this order, each key with its value, defaults and values a seed derives left out |
| ConfigCodec.SavingSettles | src/clientcfg.rs:391-733 | loading a file and saving it reaches a fixed point at once |
| ConfigCodec.LexOfQuoted | src/config/codec.rs:91-117 | a quoted string is lexed back, with what follows it, exactly when it holds no control character |
| ConfigCodec.ParseFile | src/clientcfg.rs:391-414 | the table-by-table loop, with its late pass over waiting credentials, parses as the round trip assumes |
| ConfigCodec.FillEach | src/clientcfg.rs:391-414 | the late pass fills exactly the credentials that waited for the client id |
| ConfigCodec.WriteFile | src/clientcfg.rs:581-733 | the file written for a config is read back as that config if it is well formed |
| ConfigText.TextRoundTripIff | src/clientcfg.rs:391-733 | the text written for a config is read back as that config exactly when it is well formed, whatever quotes, backslashes, hashes and equals signs its strings hold |
| ConfigText.SavedTextLoadsTheSame | src/clientcfg.rs:391-733 | whatever a text loads as, the text saved for it loads as the same |
| ConfigText.TextBack | src/config/codec.rs:383-444 | any file of tables whose keys and kinds fit the grammar is read back from its text, table by table and key by key in order |
| ConfigText.KeyLineBack | src/config/codec.rs:68-87 | a key's line is kept whole, split at its own equals sign and read into the open table |
| ConfigText.ValueBack | src/config/codec.rs:120-192 | a string, number, boolean, address or list its key takes is read back from its text |
| ConfigText.SignIsTakenIff | src/config/codec.rs:131-137 | of all characters that are no digit only a plus can stand before a number, and it changes nothing |
| ConfigText.ReadIsTaken | src/config/codec.rs:335-354 | conversely a value that is read is one its key takes |
| ConfigText.DottedBack | src/config/codec.rs:290-301 | every address is read back from its dotted form |
| ConfigText.AddressIsReadIff | src/config/codec.rs:290-301 | and from no other text: each number below 256, in decimal, with no zero in front |
| ConfigText.LinesBack | src/config/codec.rs:393-397 | lines without control characters are split where they were joined |
| ConfigText.FindIff | src/config/codec.rs:45-87 | the place a scan finds is the first of the mark's places outside the quoted strings, escapes read |
| ConfigText.NoteIsCommentIff | src/config/codec.rs:45-64 | a note after a line is a comment exactly when the line leaves no string open |
| ConfigText.FindMark | src/config/codec.rs:45-87 | the two-flag loop finds that place, or none when there is none |
| ConfigText.ReadEach | src/config/codec.rs:383-444 | the line loop reads as the round trip assumes, and yields only tables that fit the grammar |
| ConfigText.WriteEachTable | src/clientcfg.rs:581-733 | the appending loops write as it assumes, and what they write is read back |
| ConfigText.AppendTable | src/config/codec.rs:251-257 | a blank line between tables, and none before the first |
| ActiveTarget.EveryBootRunIsAdmitted | src/client.rs:1074-1248 | from any admitted boot, through every sequence of mutators, slot claims stay pairwise distinct, slot identities unique, the body's claims disjoint from them, and the cached claims the recomputed ones |
| ActiveTarget.NothingIsUsedTwice | src/client.rs:1074-1248 | so through every sequence of mutators no interface, bridge or default routing is used by two slots or by a slot and the body |
| ActiveTarget.DistinctIffApart | src/client.rs:897-939 | claims are pairwise distinct exactly when no two slots use the same thing: a device, for an exiting consumer default routing, for a segment its bridge |
| ActiveTarget.AdmitsIffApart | src/client.rs:971-1001 | admission passes a body exactly when it uses nothing a slot does |
| ActiveTarget.InitIff | src/client.rs:1074-1087 | a slot set and a body are installed at boot exactly when frames can tell the slots apart, every provider has one capability bit and nothing is used twice |
| ActiveTarget.StopSkipsAdmission | src/client.rs:1218-1228 | `stop` installs its fallback unasked: the state stays admitted exactly when admission would have passed it |
| ActiveTarget.PlainFallbacksPass | src/clientctl.rs:188-190 | with the fallbacks the dispatcher uses, forwards and idle, admission is always kept |
| ActiveTarget.DeviceFallbackContends | src/client.rs:1218-1228 | a concrete device fallback that breaks it, from a state that boot reaches |
| ActiveTarget.RefusedChangesNothing | src/client.rs:1098-1213 | a refused mutator changes nothing, permits included |
| ActiveTarget.AttachAdmitted | src/client.rs:1098-1136 | an attach checked against the running and the boot body keeps everything admitted |
| ActiveTarget.DetachAdmitted | src/client.rs:1141-1152 | a detach keeps it |
| ActiveTarget.CheckDistinct | src/client.rs:897-907 | the incremental check accepts exactly pairwise distinct claims |
| ActiveTarget.CheckAdmits | src/client.rs:913-923 | accepts exactly when nothing incoming is held |
| ActiveTarget.GatherClaims | src/client.rs:927-939 | the claims of a slot set in order |
| ActiveTarget.FindClash | src/client.rs:1098-1136 | finds a running slot in the way iff there is one |
| ActiveTarget.CheckIdentities | src/client.rs:948-969 | the nested loop accepts exactly slot sets with unique identities and, for each provider, one capability bit, whichever it is |
| ActiveTarget.SharedTarget.Attach | src/client.rs:1098-1136 | the locked section does what the run results speak of, and keeps admission |
| ActiveTarget.SharedTarget.Detach | src/client.rs:1141-1152 | as above |
| ActiveTarget.SharedTarget.InstallMode | src/client.rs:1171-1177 | as above |
| ActiveTarget.SharedTarget.LeavePark | src/client.rs:1197-1213 | as above; refused unless idle or offline |
| ActiveTarget.SharedTarget.Park | src/client.rs:1183-1191 | as above; refused when already offline |
| ActiveTarget.SharedTarget.Retarget | src/client.rs:1160-1164 | moves the target and fires the cancel |
| ActiveTarget.SharedTarget.Stop | src/client.rs:1218-1228 | replaces the body exactly when the named session runs |
| ActiveTarget.SharedTarget.Serve | src/client.rs:1238-1248 | promotes an idle body or kicks a forwards one, and nothing else |
| ActiveTarget.SharedTarget.Kick | src/client.rs:1255-1260 | fires the cancel of a forwards body and no other |
| ActiveTarget.SharedTarget.Init | src/client.rs:1074-1087 | installs an admitted slot set and body; a refusal sets neither, and leaves the cached claims replaced when only the body was refused |
| ActiveTarget.SharedTarget.Begin | src/client.rs:1266-1275 | hands the loop the state as it is, under a new cancel |
| SwitchLoop.NoSwitchIsLost | src/client.rs:1601-1863 | in every interleaving of mutators with the loop's own steps, at every program point of a pass: while it runs anything but what the shared state says, a permit waits on its cancel; where it listens it can take it; where it is deaf it cannot lose it and its next step listens or ends the client |
| SwitchTrace.StepsFollowTheirPass | src/client.rs:1617-1862 | in every interleaving from boot the loop may take a step exactly when it follows, told from the steps alone, from what the pass has done: opening, looking the server up, an exit body's routes, the session, the pauses, and on a cancel the aborted session and every slot |
| SwitchTrace.SessionsAreRouted | src/client.rs:1691-1749 | whenever a session is up an address was found in this very pass, and for a tun body with exit the loop's latest step set its routes; no other body ever sets any |
| SwitchLoop.RestartOnlyTearsDown | src/client.rs:1636-1862 | after a permit is consumed at any of the six sites, with mutators interleaved, the loop only awaits the aborted session and each slot once, counting down exactly to `begin`, and no branch leads back into the pass |
| SwitchLoop.ConsumedRestarts | src/client.rs:1636-1862 | every listening site goes to teardown on its cancel |
| SwitchLoop.RestartTakesOver | src/client.rs:1266-1275 | in every run a restart reaches `begin` at its own loop step, neither sooner nor later, and that `begin` runs what the shared state says by then |
| SwitchLoop.PendingSwitchIsTaken | src/client.rs:1601-1863 | from the moment a switch is pending, wherever the loop is, one that takes a waiting permit when it next listens begins again within four of its steps and one per slot, unless the client ends |
| SwitchLoop.LoopIsNeverStuck | src/client.rs:1601-1863 | a loop that has not ended always has a step, a parked one once a switch is pending |
| SwitchLoop.OnlyMutationsRestart | src/client.rs:1614-1620 | however sessions end, lookups fail or routes are refused, there are no more passes after the first than mutations accepted |
| SwitchLoop.BeginStartsClean | src/client.rs:1266-1275 | the new cancel holds no permit, so an old one never restarts the loop twice |
| SwitchLoop.RefusedDoesNotRestart | src/client.rs:1098-1213 | a refused mutator leaves no permit |
| SwitchLoop.OneRestartTakesAll | src/client.rs:1266-1275 | however many mutators ran while the loop listened, one permit and one restart take them all in and leave nothing pending |
| Control.RefusedChangesNothing | src/clientctl.rs:370-428 | a refused admin request changes neither the live state nor the config |
| ControlEffects.EveryMutationDoes | src/clientctl.rs:370-428 | in every state a run can reach each of the twelve messages is accepted exactly on its own conditions, and then does to every field what the message says and no more |
| ControlEffects.EveryExchangeDoes | src/clientctl.rs:320-344 | a whole exchange is that and, if its save came back in time, a restarted forwards body or an idle client brought up |
| ControlEffects.SetOptionsDoes | src/clientctl.rs:449-494 | an option edit is taken for a forward that is there, with no proxy header on UDP, and sets its enabled, proxy and idle, live and declared, keeping its target and every other forward |
| ControlEffects.AddForwardDoes | src/clientctl.rs:654-723 | an add is taken for a free key, a `host:port` target or the loopback default, and no device; it is live and last in the declared list |
| ControlEffects.RemoveForwardDoes | src/clientctl.rs:726-740 | a removal takes that forward out of both, the others in their places |
| ControlEffects.AddServerDoes | src/clientctl.rs:513-593 | an add is taken for a free name, a printable `host:port` and a key no profile is looked up by; it is last in both lists, its secret in canonical hex doing both jobs |
| ControlEffects.RemoveServerDoes | src/clientctl.rs:596-614 | any profile but the one in use leaves both lists from the same place |
| ControlEffects.SelectDoes | src/clientctl.rs:431-446 | a dialable profile becomes the target of the body that runs, restarted, and is recorded |
| ControlEffects.ConnectDoes | src/clientctl.rs:617-651 | a client that runs nothing gets the boot body if it contends with no slot, against the named profile or the one it had |
| ControlEffects.SpawnDoes | src/clientctl.rs:497-510 | the first session of that name replaces the body if it contends with no slot |
| ControlEffects.StopDoes | src/clientctl.rs:381-389 | the running session gives way to the forwards, or to nothing when there are none |
| ControlEffects.DisconnectDoes | src/clientctl.rs:399-408 | a client that is not parked is parked |
| ControlEffects.ConsumerDoes | src/clientctl.rs:743-863 | a consumer attach is taken for a hex peer, exit alone and the only consumer, if it contends with nothing running or booting; its slot and its tun table are these |
| ControlEffects.ProviderDoes | src/clientctl.rs:743-863 | a provider attach likewise, one of each capability, open to the saved allowlist's keys, its keys merged into the saved table |
| ControlEffects.DetachDoes | src/clientctl.rs:866-900 | a detach takes out the one slot it names and its record, an emptied peer table going altogether |
| ControlEffects.PairsLaterIff | src/clientctl.rs:829-862 | an attach is answered as effective later exactly under a body that opens no control session |
| ControlEffects.BootLists | src/main.rs:1729-1815 | boot keeps the config, its servers with canonical keys, its sessions and its forwards |
| ControlEffects.BootRuns | src/main.rs:1729-1815 | and runs the server, body and slots the config declares: forwards, else the first autostart session, else the device, else nothing |
| ControlEffects.DeclaredIsLive | src/main.rs:489-507 | every declared forward is live with its own options |
| ControlEffects.LiveIsDeclared | src/main.rs:489-507 | and every live one is declared |
| ControlEffects.ValidHostPortIff | src/clientctl.rs:974-979 | a target passes exactly when its last colon parts a non-empty name from a port between 1 and 65535 |
| ControlSafety.EveryRunStaysGood | src/clientctl.rs:370-900 | from any valid config that boots, through every sequence of admin exchanges, given up in their save or not: the config passes `validate` and parses back from its own file; live forwards, servers and peer slots are the declared ones; a set `active` names the running target; nothing contends |
| ControlSafety.ApplyKeeps | src/clientctl.rs:370-428 | each mutation keeps all of that |
| ControlSafety.AnswerKeeps | src/clientctl.rs:320-344 | so does a whole exchange, whether or not it gets past its save |
| ControlSafety.ServedIff | src/clientctl.rs:320-344 | an exchange leaves the client idle beside declared forwards exactly when it is an add accepted by an idle client and given up before its save came back |
| ControlSafety.EveryRunServes | src/clientctl.rs:240-257 | so from boot every sequence of exchanges that abandons no such add keeps declared forwards served |
| ControlLimits.TimedOutAddIsNotServed | src/clientctl.rs:240-257 | a concrete exchange after which a forward is declared, live and saved, and the client idle |
| ControlSafety.AddServerBootsIff | src/clientctl.rs:513-593 | an accepted add leaves a config that passes `validate` exactly when the new secret is not the peer secret, which is never compared |
| ControlLimits.PeerSecretIsAccepted | src/clientctl.rs:513-593 | for any two keys, a good state and an accepted add of the peer secret after which `validate` fails |
| ControlSafety.AddServerKeeps | src/clientctl.rs:513-593 | with a secret apart from the peer's, an add keeps everything |
| ControlSafety.RemoveServerKeeps | src/clientctl.rs:596-614 | removing a server that is not running keeps everything, the remaining servers still passing the key rules |
| ControlSafety.ConnectKeeps | src/clientctl.rs:617-651 | a connect from idle or offline keeps everything and records the server it named, an unnamed one recording nothing |
| ControlSafety.SelectKeeps | src/clientctl.rs:431-446 | switching servers keeps everything, `active` following |
| ControlSafety.SetOptionsKeeps | src/clientctl.rs:449-494 | an option edit keeps the live map and the config in step |
| ControlSafety.AddForwardKeeps | src/clientctl.rs:654-723 | so does an added forward |
| ControlSafety.RemoveForwardKeeps | src/clientctl.rs:726-740 | so does a removed one |
| ControlSafety.AttachKeeps | src/clientctl.rs:743-863 | an attach adds its slot to the running set and its record to the config, or neither |
| ControlSafety.DetachKeeps | src/clientctl.rs:866-900 | a detach takes both away |
| ControlSafety.BootIsGood | src/main.rs:1729-1815 | boot from a valid file starts with live state and config in step |
| ControlSafety.NextBootIff | src/clientctl.rs:726-740 | at any moment of a run the saved config boots again exactly when the body it would boot claims nothing the declared slots hold |
| ControlLimits.SavedConfigDoesNotBoot | src/clientctl.rs:726-740 | two accepted mutations, an exit slot attached and the last forward removed, after which `validate` passes and boot is refused |
| AdminDispatcher.Dispatcher.Mutate | src/clientctl.rs:370-428 | over the shared target, forwards and servers it owns, each edited by its own locked methods, one mutation up to its save does what the run results speak of |
| AdminDispatcher.Dispatcher.Exchange | src/clientctl.rs:320-344 | a whole exchange on the objects: keeps the good state, and keeps forwards served unless it abandons an add |
| AdminDispatcher.Dispatcher.BootFrom | src/main.rs:1729-1815 | builds the shared objects a config file declares, or refuses exactly when the boot model does; a valid file gives a good state |
| AdminDispatcher.Dispatcher.Select | src/clientctl.rs:431-446 | as `Mutate` for `select_server` |
| AdminDispatcher.Dispatcher.SetOptions | src/clientctl.rs:449-494 | as `Mutate` for `set_forward_options` |
| AdminDispatcher.Dispatcher.AddProfile | src/clientctl.rs:513-593 | as `Mutate` for `add_server` |
| AdminDispatcher.Dispatcher.RemoveProfile | src/clientctl.rs:596-614 | as `Mutate` for `remove_server` |
| AdminDispatcher.Dispatcher.ConnectNamed | src/clientctl.rs:617-651 | as `Mutate` for `connect` |
| AdminDispatcher.Dispatcher.AddEntry | src/clientctl.rs:654-723 | as `Mutate` for `add_forward` |
| AdminDispatcher.Dispatcher.RemoveEntry | src/clientctl.rs:726-740 | as `Mutate` for `remove_forward` |
| AdminDispatcher.Dispatcher.Attach | src/clientctl.rs:743-863 | as `Mutate` for `attach_peer` |
| AdminDispatcher.Dispatcher.Detach | src/clientctl.rs:866-900 | as `Mutate` for `detach_peer` |
| AdminDispatcher.Dispatcher.ChangeBody | src/clientctl.rs:370-428 | as `Mutate` for `spawn_pppoe`, `stop` and `disconnect` |
| Forwards.SharedForwards.Entries | src/client.rs:338-357 | every declared forward once, tcp before udp and then strictly ascending by port |
| Forwards.ReportedAsSet | src/client.rs:338-357 | the snapshot reports a forward as an edit sets it, no idle override being zero seconds both ways |
| Forwards.SortedListIsUnique | src/client.rs:338-357 | there is only one such list, so the result is fully determined |
| Forwards.SharedForwards.Add | src/client.rs:267-285 | over the two maps seen as one: adds iff the key is free, and changes nothing else |
| Forwards.SharedForwards.Remove | src/client.rs:289-296 | removes iff present, and changes nothing else |
| Forwards.SharedForwards.SetOptions | src/client.rs:313-335 | edits iff present, keeping the target and every other entry |
| Forwards.SharedForwards.AnyDeclared | src/client.rs:260-263 | true iff some forward is declared, enabled or not |
| Forwards.SplitForwards | src/main.rs:489-507 | the declared list by protocol, as one map the forward map of the config |
| Servers.SharedServers.Get | src/client.rs:602-609 | the first profile of a name |
| Servers.SharedServers.Add | src/client.rs:612-619 | appends iff no profile has the name |
| Servers.SharedServers.Remove | src/client.rs:622-627 | drops every profile of the name, answering whether there was one |
| Servers.SharedServers.OwnsDiscovery | src/client.rs:632-637 | true iff some profile's discovery credential decodes to the key |
| Tunnel.SuiteIsLawful | src/noise.rs:204-213 | BLAKE2s and its HMAC meet what the handshakes ask of a hash, whatever the round function does |
| Tunnel.MirroredKeysMakeANet | src/noise.rs:333-346 | mirrored transport keys are one datagram net, lawful exactly when the two directions differ |
| Tunnel.MirroredKeysTunnel | src/noise.rs:333-346 | over any mirrored keys whose two directions differ, in every run, each end delivers only what the other sealed, each at most once |
| Tunnel.HandshakeThenDatagrams | src/noise.rs:475-477 | after any XX handshake whose transport keys differ, over any network and in every run, each end delivers only what the other sealed, each at most once |
| Tunnel.PskHandshakeThenDatagrams | src/noise.rs:1053-1106 | the same after any NNpsk0 handshake, which itself always completes with both payloads delivered |

## Left out

- Sockets, TAP and TUN devices, ioctls, `/proc` parsing, tokio tasks, timers and buffer recycling: replaced by the abstract steps above.
- The internals of ChaCha20-Poly1305, X25519, the BLAKE2s round function and the KCP crate: parameters, or not modelled.
- `plan_server_pin` and `plan_underlay_pins`: which uplink a pin uses is an input here.
- The server's config file: a second grammar over the same text layer, which would only repeat its tables.
- The wording of error messages, and which of several errors is reported first, save on the admin wire where faults are values.
- Saving to disk, and quarantining a broken file: a save is only the moment an exchange may be given up at.
- Boot from command-line flags and PPPoE password lookup: boot is from a config file.
- The order in which a `HashMap` is walked: floods and listings are proved for every order.
- The server side, its admin protocol, peers' punch and relay negotiation, netfilter rules, file watching, admission cookies, ping and backoff timing: not modelled.
- Snapshot and table rendering, and float formatting: user interface.
- SessionSteps.IdleIsEmptyIff: a guard's drop is one step; between its two halves a session only looks busier than it is.
- Interleaving inside one locked section, panics of poisoned locks, and mutators racing inside one admin mutation between its separate locks.
- SwitchLoop.PendingSwitchIsTaken: a loop whose other `select!` branches keep winning over a waiting permit is bounded only in what it cannot lose, since the choice between ready branches is the runtime's.
- ReplayWindow.MarkRefines: the 128-bit word is a natural number cut to 128 bits explicitly, since bit-vector shifts of that width are costly to reason about.
- ExitRouteSafety.EveryTableIsSafe: asks that the initial table had a default route, which planning a pin requires, and speaks of defaults an ioctl can name; GradedIff covers the rest.
- ExitRouteSafety.NoHalfWithoutPin: speaks of bring-up, unwind and drop; RedialPinnedIff and RedialTables cover the redials, whose one table inside each change of address has neither pin because the code takes the old one off first.
- Datagram.EveryRunDeliversWhatWasSentOnce: a safety result; that packets eventually arrive is the network's choice.
