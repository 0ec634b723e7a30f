# Starmesh: a verified model of the hub protocol, the invite codec and hub selection

Starmesh is a mesh of hubs and spokes. Spokes hand signed envelopes to a hub, hubs flood them or
follow routing hints learned from presence gossip, and spokes find hubs through DNS-less invites
(`starmesh1:` blobs, QR codes, 10-character codes) that they cache. This project models that logic
in Dafny and proves what it guarantees. Run `dafny verify dfyconfig.toml`.

## What is modelled

**The hub federation** (`HubState`, `Servers`, `Network`, `Delivery`, `Arrangements`, `Termination`,
`Gossips`, `GossipTermination`, `GossipHints`, `LeafTrap`, `DeliveryMeanwhile`, `SeenIds`,
`Envelopes`, `Authenticity`, `Wire`). `HubState` says in functions what one hub does with one message; the class
`Servers.Server` does it on mutable tables and is proved against those functions. `Network` puts hubs
into a fixed graph with messages in flight that arrive in any order; one step is one handler call, and
whether a message arrives on the registered session of its sender is left free in every step. That
hints and links lead to the home hub of the addressee is sufficient for delivery in every arrangement
of sessions, and it is the condition that serves for all of them (`Delivery.DeliveryIsReachability`).
The exact condition for each fixed arrangement is that no order of first arrivals ends in a pocket of
hubs that keeps the envelope from home (`Arrangements.DeliveryInArrangement`).

Delivery is not unconditional, because a hub advertises spokes that it has only heard of, and so
points hints at itself. What gossip makes of hints is proved for all runs: when one hub alone has sent
rounds, all hints for what it advertises point at it in the end, and all others are as they were
(`GossipHints.OneSpeakerDecides`). If that hub
is the home of a spoke, this repairs the hints for it (`GossipHints.HomeRepairs`,
`LeafTrap.PresenceGivesItBack`), and envelopes get through while it happens
(`DeliveryMeanwhile.DeliveredWhileHomeSpeaks`). If it is a hub with a single link, one announcement of
one of its spokes takes delivery away from its neighbour (`LeafTrap.PresenceMisleads`,
`LeafTrap.PresenceTakesDelivery`): what is handed in there is lost in every run, while what is handed
in at the leaf itself comes through exactly when it arrives on the registered session
(`LeafTrap.FromLeafIff`). Forwarding and gossip always die out, whatever the hints say. What a spoke is
handed was brought in for it and signed by its sender as it is, in every run
(`Authenticity.HandedOverIsSigned`), and an envelope altered after signing goes nowhere
(`Authenticity.AlteredGoesNowhere`).

**The invite codec** (`Octets`, `Folds`, `Crc32`, `Base32`, `Invites`, `InviteTheorems`,
`InviteFormat`, `Substitution`, `Utf8`, `DartInvites`, `DartTheorems`, `Strings`, `InviteText`, `ShortCodes`). The
binary form, the table-driven CRC-32 against the bit-at-a-time register of sections 2.3.1 and 8 of
RFC 1952, the base32 loops with their 64-bit accumulator that is never masked against the bit strings
of section 6 of RFC 4648, the Dart twin, the cleaning of text, and the 10-character fingerprints.
Round trips are stated with their exact exceptions: a hub at `::` (Go), a name cut inside a character
(Dart), flags or bytes that reading ignores, expiries before 1970 that Go and Dart round differently.

**Hub selection** (`HubCache`, `DialOrder`, `Spokes`). The cache, what of an invite survives it, the
dial order with its stable sort, and the candidates of a spoke.

Cryptography and libraries are parameters: Ed25519 verification, the SHA-256 behind a short code, Go's
base32 decoder, and printing and parsing of addresses. Each appears as a function, with the one law
that a theorem needs of it as a precondition (`InviteText.Lawful`, `HubCache.ParsesBack`,
`Authenticity.OneMessage`). Moments
are numbers; each reading of the clock is a parameter.

Where the documentation and the code disagree, the code is modelled. The comment at the head of
`invite/codec.go:10-15` promises that a short code resolves through the last-good hub cache. The
cache keeps no expiry, and every invite that a hub gives out has one, so the fingerprint of such an
invite changes in the cache, and its code is not found there: `HubCache.CodeThroughCache`,
`Spokes.BlobThenCode`, `Spokes.GivenOutBlobThenCode`.

## Model

| member | source | states |
|---|---|---|
| Servers.Server.Targets | hub/server.go:323-348 | the sessions that a new envelope goes out on are those of `Route`, each once, whether or not the arriving session is a registered one |
| Servers.Server.Forward | hub/server.go:315-349 | an envelope that does not verify, or whose signature its sender's key does not accept, changes nothing and goes nowhere; any other changes the seen set as `Add` does and goes where `HubState.Forward` says, once per ID |
| Servers.Server.GossipLocal | hub/server.go:351-389 | a new number; the hints of local spokes point here and no other changes; the round lists exactly the local spokes and the keys whose hints point elsewhere, and goes to every hub and spoke session once |
| Servers.Server.OnGossip | hub/server.go:287-309 | a round that is not newer than the last of its origin changes nothing and is not passed on; a newer one points its entries at the origin, and goes to all spokes and all hubs but the sender |
| Servers.Server.OnPresence | hub/server.go:268-286 | announced keys that are no local spokes are placed here if they came from a spoke and at the announcing hub otherwise, no other hint changes, and a round of gossip follows |
| Servers.Server.Connect | hub/server.go:206-227 | a session is entered under its key in the table of its role, an older one of the key is replaced, a spoke gets its hint, and a round of gossip follows |
| Servers.Server.Disconnect | hub/server.go:406-415 | exactly the key is taken out of the table of the role, whichever session is in it, and a round of gossip follows, which lists a key only if it is a spoke or its hint points elsewhere |
| Servers.Server.AllBut | hub/server.go:391-404 | every session of the table but one, each once |
| HubState.DropUndoesRegister | hub/server.go:215-224 | a spoke is entered with its hint, a hub without; and taking a new key out again leaves both tables and all other hints as they were |
| HubState.RoundAfterDrop | hub/server.go:364-373 | the round after the end of a spoke's session lists the spoke if and only if its hint points at another hub |
| HubState.RoundsOfSession | hub/server.go:215-227 | the round after a spoke has connected lists it, and the round after it has left does not |
| SeenIds.SeenIDs.Add | hub/handshake.go:160-176 | the loop over the map removes exactly the entries older than ten minutes, and only above 4096 |
| SeenIds.AcceptedIff | hub/handshake.go:160-176 | in every sequence of calls a call is accepted if and only if every earlier accepted call with its ID has been swept away |
| SeenIds.DedupWindow | hub/handshake.go:160-176 | under a clock that never goes back two accepted calls of one ID are more than ten minutes apart, with a sweep above 4096 between them |
| SeenIds.RefusedLeaveNoTrace | hub/server.go:315-322 | whatever the sequence of arrivals, the set is that of the envelopes that `Verify` accepts alone |
| SeenIds.ForwardedApart | hub/server.go:315-322 | whatever arrives in between, two envelopes of one ID that both pass `Verify` and `Add` are more than ten minutes apart |
| Network.StepKeepsTopology | hub/server.go:249-404 | no handler changes keys, links or spokes of any hub |
| Network.NotBackToSender | hub/server.go:331-347 | a copy that arrives on the registered session of its sender puts no copy on the way back |
| Network.RoundNotBack | hub/server.go:391-404 | neither does a round of gossip |
| Delivery.StepKeepsInv | hub/server.go:315-349 | every step keeps the delivery invariant: a hub that has seen the envelope has its hop, or all its neighbours, seen or with a copy on the way, and hands over to the spoke exactly once |
| Delivery.DeliversIfReachable | hub/server.go:315-349 | if hints and links lead from the entry hub to the home of the addressee, every complete run delivers exactly once, there and nowhere else |
| Delivery.SwallowsIfUnreachable | hub/server.go:315-349 | if they do not, there is a complete run that never delivers, with the envelope handed in at that hub only and no message on a registered session |
| Delivery.DeliveryIsReachability | hub/server.go:315-349 | hints and links lead home if and only if, in every symmetric arrangement of sessions, every complete run delivers exactly once |
| Arrangements.StepTraced | hub/server.go:315-349 | every step keeps: the hubs that have seen the envelope form an order of first arrivals, and what they sent on is in flight or at hubs of that order |
| Arrangements.DeliversWithoutPocket | hub/server.go:320-348 | for each fixed arrangement, if no order of first arrivals ends in a pocket, every complete run delivers exactly once |
| Arrangements.PocketSwallows | hub/server.go:320-348 | if one does, there is a complete run in that arrangement that never delivers |
| Arrangements.DeliveryInArrangement | hub/server.go:320-348 | the exact condition for delivery in all complete runs, for each fixed arrangement of sessions |
| Arrangements.UnregisteredPockets | hub/server.go:337-342 | where nothing arrives on a registered session, there is no pocket exactly when hints and links lead home |
| Delivery.SoundHintsDeliver | hub/server.go:315-349 | on a connected graph where every chain of connected hops ends at the home hub, every run that ends with no copy in flight has delivered exactly once |
| Termination.StepPays | hub/server.go:320-348 | every step pays for its sends and deliveries out of a measure of unseen hubs and copies in flight, whatever the hints |
| Termination.ForwardingTerminates | hub/server.go:320-348 | in any run from any state the deliveries of one ID are at most the measure, and its hub-to-hub sends at most the links of the hubs that had not seen it |
| Gossips.StepKeepsGossipInv | hub/server.go:287-309 | every step keeps: no hub is ahead of an origin, what a hub has accepted its neighbours have accepted or have coming, and the entries of an origin's last round are known to whoever accepted it |
| Gossips.GossipConverges | hub/server.go:287-309 | from a quiet start on a connected graph, whenever no gossip is in flight all hubs have the last round of every origin and hints for all spokes in it, in any order of messages |
| GossipTermination.RoundsDieOut | hub/server.go:287-309 | in any run the deliveries of one gossip round are bounded by a measure of the hubs that lag behind it |
| GossipHints.StepSpeaking | hub/server.go:287-309 | every step keeps, while one hub alone sends rounds: all gossip in flight is of that hub and advertises the key, and whoever has accepted some of it points the key at that hub |
| GossipHints.OneSpeaker | hub/server.go:298-307 | from any hints, gossip at rest, through a run in which one hub alone sends rounds, at least one, back to rest: every other hub points every key that this hub advertises at it, in any order of messages |
| GossipHints.UnspokenKeepsHint | hub/server.go:364-373 | a key that this hub neither has as a spoke nor hints at another hub keeps its hint at every other hub, in every state of the run |
| GossipHints.OneSpeakerDecides | hub/server.go:298-307 | both together: at the end the hint of every other hub for a key is the hub that spoke if that hub advertised the key, and else what it was |
| GossipHints.HomeRepairs | hub/server.go:356-373 | if that hub is the home of a spoke, all other hubs then point the spoke home, and every complete run from there delivers exactly once wherever the envelope is handed in |
| LeafTrap.NeverDelivered | hub/server.go:337-348 | if the hint of a hub points at a neighbour whose only link it is, and neither is home, nothing that is handed in at that hub is ever handed to a spoke, in any run, on any sessions |
| LeafTrap.SomeRunIsLost | hub/server.go:337-348 | and there is such a complete run in every arrangement of sessions |
| LeafTrap.FromLeafIff | hub/server.go:337-348 | neither hub leads home by hints and links, and still, with home beside the neighbour, what is handed in at the leaf is delivered exactly once in every complete run if and only if what the leaf sends arrives on its registered session |
| LeafTrap.PresenceMisleads | hub/server.go:268-286 | from every state of gossip: after one announcement of a spoke at a leaf that has heard of the addressee, and the neighbour hearing that one round, every complete run from the neighbour is without delivery, and there are such runs |
| LeafTrap.LeafSpeaks | hub/server.go:364-373 | so it is at the end of every run from rest to rest in which the leaf alone sends rounds |
| LeafTrap.RestedAdvertises | hub/server.go:364-373 | in every run of gossip since its start, at rest after home has sent a round, a hub that was never told that a spoke of home lives there advertises the spoke |
| LeafTrap.PresenceHeard | hub/server.go:268-309 | from rest, an announcement can be made at any hub and its round heard everywhere on registered sessions until gossip is at rest again |
| LeafTrap.PresenceTakesDelivery | hub/server.go:268-309 | after gossip has come to rest and an announcement at a leaf has been heard everywhere, nothing handed in at the neighbour is handed over, in any order of messages and on any sessions |
| LeafTrap.PresenceGivesItBack | hub/server.go:268-309 | after an announcement at home has been heard everywhere, every complete run delivers exactly once, whatever the hints were |
| DeliveryMeanwhile.StepOnItsWay | hub/server.go:315-349 | every step keeps, while hints name home or no connected hub: every other hub that has seen the envelope has home, or all its links, seen or with a copy on the way |
| DeliveryMeanwhile.DeliveredMeanwhile | hub/server.go:315-349 | on a connected graph, if in every state of the run the hops of other hubs are absent or home, however they come and go, the envelope has been delivered exactly once when no copy is in flight |
| DeliveryMeanwhile.DeliveredWhileHomeSpeaks | hub/server.go:287-349 | so an envelope is delivered exactly once while rounds of home spread, in whatever way gossip and copies overtake each other |
| Envelopes.AppendField | hub/envelope.go:37-42 | the closure `put` appends a field behind its length |
| Envelopes.SignedBytes | hub/envelope.go:34-52 | the appended fields are the length-prefixed form |
| Envelopes.SignedParses | hub/envelope.go:34-52 | a parser of length-prefixed fields gets back ID, sender, addressee, eight bytes that spell the time modulo 2^64, type and ciphertext, in this order |
| Envelopes.FieldLength | hub/envelope.go:37-42 | the length that this parser takes is what the first four bytes spell, most significant first |
| Envelopes.NumberOfBE64 | hub/envelope.go:46-48 | the eight bytes of the time spell it modulo 2^64, most significant first |
| Envelopes.SignedInjective | hub/envelope.go:34-52 | equal signed bytes mean equal ID, sender, addressee, time, type and ciphertext, for fields below 2^32 bytes |
| Envelopes.VerifiedIff | hub/envelope.go:58-75 | exactly envelopes with a 32-byte key, a signature that the key accepts for their signed bytes, a time, and 40 to 65536 bytes of ciphertext verify; and which error refuses the others |
| Authenticity.OneSignatureOneEnvelope | hub/envelope.go:62-64 | if a key accepts a signature for one message at most, two envelopes with one sender and one signature that hubs hand on are equal in every field |
| Authenticity.AlteredGoesNowhere | hub/server.go:315-322 | an envelope changed in any field after it was signed leaves every hub as it was and is sent nowhere |
| Authenticity.HandedOverIsSigned | hub/server.go:315-349 | in every run of the network whatever a spoke is handed was brought in before, for this spoke, with a signature that its sender's key accepts |
| Wire.WriteFrame | hub/wire.go:90-105 | a frame of at most 2^20 bytes is appended to the stream, a larger one is refused and nothing is written |
| Wire.ReadFrame | hub/wire.go:107-125 | one frame is taken off the stream, or one of the errors of a bad length or a stream cut short |
| Wire.FrameBytes | hub/wire.go:98-104 | a frame is four bytes that spell the length of the body, most significant first, and the body |
| Wire.ReadOneIff | hub/wire.go:107-120 | a frame is read exactly when the first four bytes spell a length from 1 to 2^20 and as many bytes follow, and it is these bytes |
| Wire.ReadBack | hub/wire.go:90-125 | reading a stream of written frames gives exactly those frames and then a clean end |
| Wire.ReadPrefix | hub/wire.go:90-125 | reading any prefix gives exactly its whole frames, never another message, and then an end of stream |
| Crc32.MakeIEEETable | invite/codec.go:356-371 | entry i is what eight steps of the register make of i |
| Crc32.Crc32IEEE | invite/codec.go:373-379 | the loop over the table computes the byte-at-a-time CRC |
| Crc32.TableStep | invite/codec.go:375-377 | one table lookup is eight steps of the register |
| Crc32.CrcIsBitCrc | invite/codec.go:356-379 | the CRC is the bit-at-a-time CRC-32 on every byte sequence |
| Crc32.CheckValue | invite/codec.go:356-379 | the CRC of the nine digits is 0xCBF43926, the check value of CRC-32 |
| Crc32.DifferenceOfBytes | invite/codec.go:373-379 | the difference of the CRCs of two inputs of one length depends on their xor alone |
| Crc32.AbsorbWord | invite/codec.go:373-379 | absorbing up to 32 bits is xoring them into the register and running as many zero bits |
| Crc32.BurstDetected | invite/codec.go:373-379 | any change within 32 consecutive bits of a message of any length changes the CRC |
| Crc32.ByteBurstDetected | invite/codec.go:373-379 | so does any change within four consecutive bytes |
| Base32.CrockfordEncode | invite/dart/lib/invite.dart:174-193 | the loop in wrapping 64-bit arithmetic, never masked, writes the bit-string encoding at every length |
| Base32.CrockfordDecode | invite/dart/lib/invite.dart:195-211 | the loop reads back whole bytes of the bits of the symbols in the text, in either case, other characters skipped |
| Base32.DecodeOfEncode | invite/dart/lib/invite.dart:174-211 | decoding an encoding gives the bytes, at every length |
| Base32.EncodeSpells | invite/dart/lib/invite.dart:174-193 | the letters are the digits in base 32 of the number that the bytes spell, moved up by the fewest bits that fill the last letter |
| Base32.AlphabetIs | invite/dart/lib/invite.dart:19 | the alphabet is the digits and the capitals but I, L, O and U, in ascending order |
| Invites.SetFlags | invite/codec.go:152-165 | the flag byte |
| Invites.WriteBody | invite/codec.go:141-190 | the buffer that `marshal` fills is the body: defaults, cuts, fields in order |
| Invites.MarshalInvite | invite/codec.go:131-198 | the bytes, or the first of the errors, in the order of the checks |
| Invites.ReadFields | invite/codec.go:283-319 | the fields read at a moving offset are those of the layout, or the body is too short for them |
| Invites.UnmarshalInvite | invite/codec.go:270-324 | the invite, or the first of the errors, in the order of the checks |
| InviteFormat.FixedBytes | invite/codec.go:170-181 | the first 56 bytes: version 1, the bits for IPv4, cloud seed and name, the key, the IPv6 address or zeros, and port and expiry as the numbers that their bytes spell |
| InviteFormat.TailBytes | invite/codec.go:182-189 | behind them the four bytes of the IPv4 address if there is one, and the first 32 bytes of the name, if there is one, behind their number |
| InviteFormat.ChecksumBytes | invite/codec.go:190-196 | four more bytes, which spell the bit-at-a-time CRC-32 of the body |
| InviteFormat.MarshalIff | invite/codec.go:131-151 | exactly the invites of version 0 or 1 with a key that is not all zeros are written, of cloud seeds or with a 16-byte IPv6 address that maps no IPv4 one; and which error refuses the others |
| InviteFormat.UnmarshalIff | invite/codec.go:270-324 | exactly the payloads are read that are long enough for what their flags announce, end in the checksum of their body, are of version 1, and come from a cloud seed or a hub with an IPv6 address of its own; and which error refuses the others |
| InviteFormat.FieldsOfBytes | invite/codec.go:283-298 | and read as what their bytes spell |
| InviteFormat.TailOfBytes | invite/codec.go:299-315 | with the IPv4 address and the name of the length that the bytes behind the fixed part give |
| InviteTheorems.RoundTrip | invite/codec.go:131-198 | whatever `marshal` writes, `unmarshal` reads as the canonical invite, except that a hub at `::` is refused |
| InviteTheorems.ReadsBack | invite/codec.go:131-198 | in plain terms: key, flag and port come back, no port as 4433, 32 bytes of the name, the second of an expiry between 1970 and 2106, and the addresses that there were |
| InviteTheorems.UnspecifiedHubIsLost | invite/codec.go:317-322 | a hub at `::` is written and then refused |
| InviteTheorems.MoreIsIgnored | invite/codec.go:305-315 | any bytes after the fields of any body with complete fields, under a right checksum, are read as if they were not there |
| InviteTheorems.RewriteIffTight | invite/codec.go:270-324 | writing what was read gives the payload back exactly when it has no unknown flags, no port 0, no zero key, no empty or over-long name and no bytes after the fields |
| InviteTheorems.CanonicalTwice | invite/codec.go:131-198 | canonical invites are fixed points |
| InviteTheorems.FingerprintStable | invite/codec.go:74-80 | the bytes that the short code is taken of survive a full encode and decode |
| InviteTheorems.AcceptedChecksum | invite/codec.go:270-278 | an accepted payload has a right checksum, so the next rows apply to it |
| InviteTheorems.BurstIsCaught | invite/codec.go:270-278 | any change within four consecutive body bytes of a payload with a right checksum is a checksum error |
| InviteTheorems.ChecksumDamageIsCaught | invite/codec.go:274-278 | so is any change of the stored checksum |
| Substitution.StraddleIsCaught | invite/dart/lib/invite.dart:125-132 | damage to the last body byte cannot be made good by damage to the first byte of the checksum |
| Substitution.SubstitutionIsCaught | invite/dart/lib/invite.dart:125-132 | one symbol of an encoded payload replaced by any other gives the same bytes or a checksum error |
| Substitution.UnnoticedIff | invite/dart/lib/invite.dart:195-211 | the bytes are the same exactly when only bits that the decoder drops differ, and those are in the last symbol |
| Utf8.CutIsValid | invite/dart/lib/invite.dart:69 | a well-formed string cut at a byte is well formed exactly when the first byte cut off does not continue a character |
| Utf8.ValidIff | invite/dart/lib/invite.dart:153 | a byte string is well formed exactly if it is the concatenation of the UTF-8 forms of code points, as section 3 of RFC 3629 defines them |
| Utf8.BomIsSpelled | invite/dart/lib/invite.dart:153 | what decoding drops at the front is the character U+FEFF |
| DartInvites.MakeDartTable | invite/dart/lib/invite.dart:241-254 | the table of 64-bit integers holds the entries of the 32-bit one |
| DartInvites.DartCrc32 | invite/dart/lib/invite.dart:231-237 | the loop on 64-bit integers computes the same CRC and stays within 32 bits |
| DartInvites.WriteDartBody | invite/dart/lib/invite.dart:65-90 | the byte builder holds the body: defaults, truncations, fields in order |
| DartInvites.MarshalDart | invite/dart/lib/invite.dart:58-97 | the bytes, or the first exception, in the order of the checks |
| DartInvites.UnmarshalDart | invite/dart/lib/invite.dart:125-133 | the invite, or the first exception, in the order of the checks |
| DartInvites.ReadDartFields | invite/dart/lib/invite.dart:134-165 | the fields read at a moving offset, with range and UTF-8 errors |
| DartTheorems.DartRoundTrip | invite/dart/lib/invite.dart:58-165 | what the Dart codec writes it reads back in canonical form, unless the version is not 1 or the cut name is not well formed |
| DartTheorems.DartMarshalIff | invite/dart/lib/invite.dart:58-81 | exactly the invites with a key of 32 bytes are written, of cloud seeds or with an IPv6 address, which has 16 bytes; and which error refuses the others |
| DartTheorems.DartUnmarshalIff | invite/dart/lib/invite.dart:125-165 | exactly the payloads are read that Go's checks of length, checksum, version and optional fields pass, with a name that is well-formed UTF-8; and which error refuses the others |
| DartTheorems.DartReadsBackIff | invite/dart/lib/invite.dart:69 | for version 1 exactly when the cut at 32 bytes does not split a character |
| DartTheorems.SplitNameIsLost | invite/dart/lib/invite.dart:153 | 31 letters and an accented one are written and then not read |
| DartTheorems.SameBytesIff | invite/dart/lib/invite.dart:58-97 | whatever Go writes Dart writes byte for byte for the same fields, exactly when the expiry is not before 1970 with a fraction of a second |
| DartTheorems.HalfSecondDiffers | invite/dart/lib/invite.dart:83-84 | half a second before 1970 the two write different bytes |
| DartTheorems.DecodersAgree | invite/dart/lib/invite.dart:125-165 | on every payload both decoders give the same fields, but only Dart refuses ill-formed names and only Go refuses hubs without an IPv6 address of their own |
| DartTheorems.GoToDart | invite/codec.go:131-198 | Dart reads what Go writes, with the same fields |
| DartTheorems.DartToGo | invite/codec.go:270-324 | Go reads what Dart writes, with the same fields |
| InviteText.NormalizeCrockford | invite/codec.go:335-351 | the loop replaces the letters that are easily misread and no others |
| InviteText.RenderingDecodes | invite/codec.go:202-230 | spaces, hyphens, either case, O for 0, I or L for 1, U for V, white space around, with or without the scheme: both decoders read the encoded bytes and never take them for a short code |
| InviteText.BlobShape | invite/codec.go:90-96 | the blobs of both codecs are `starmesh1:` and letters that decode to the bytes |
| InviteText.EmptyIff | invite/codec.go:203-206 | exactly texts of white space alone are empty, in both codecs |
| InviteText.OnlyCodesAreResolved | invite/codec.go:209-226 | what a resolver answers matters only about ten letters of the alphabet that do not stand behind the scheme |
| InviteText.OnlyCodesAreResolvedInDart | invite/dart/lib/invite.dart:105-117 | the same in Dart |
| InviteText.GoTextRoundTrip | invite/codec.go:90-96 | decoding the blob of an invite gives its canonical form |
| InviteText.DartTextRoundTrip | invite/dart/lib/invite.dart:53-56 | the same in Dart, with its two exceptions |
| InviteText.TypoIsCaught | invite/dart/lib/invite.dart:102-133 | one character of a blob replaced by another of the alphabet decodes to the same result or to a checksum error |
| ShortCodes.CodeShape | invite/codec.go:326-333 | a short code has ten letters, all of the alphabet |
| ShortCodes.CodeSpellsDigest | invite/codec.go:326-333 | read as base32 its letters are the first 50 bits of the digest |
| ShortCodes.SameCodeIff | invite/codec.go:326-333 | two byte strings have one code exactly when their digests agree in the first 50 bits |
| ShortCodes.CodeSurvives | invite/codec.go:74-80 | an invite has the same short code after a full blob has been made of it and decoded |
| ShortCodes.CodeIsResolved | invite/codec.go:218-226 | a code written with spaces and hyphens in either case goes to the resolver as it is |
| ShortCodes.DisplayWritesCode | invite/codec.go:82-88 | the display is the code with a hyphen in the middle, and a way of writing it |
| ShortCodes.LookupTable | invite/codec.go:382-390 | the map holds, for each code, the last invite of the list with that code |
| ShortCodes.CodeFindsInvite | invite/codec.go:382-394 | typing the code of a listed invite finds it, unless a later one has the same code |
| ShortCodes.UnknownCode | invite/codec.go:218-226 | typing a code that no listed invite has finds nothing and decodes nothing |
| ShortCodes.TableAnswers | invite/codec.go:382-394 | decoding with the table of a list is decoding with the last listed invite of a code |
| ShortCodes.TableTakesWritings | invite/codec.go:242-244 | a table asked about a code with hyphens anywhere, in either case, with white space around, answers with the entry of the code |
| HubCache.Cache.Remember | hub/cache.go:71-92 | the entry of the same key is replaced in place, round trip and source kept where unknown, or the hub is appended |
| HubCache.RememberKeeps | hub/cache.go:71-92 | keys stay distinct, the hub is in the cache with all that was said of it, what was not said is taken from the entry of its key, and no other entry changes or moves |
| HubCache.RememberTwice | hub/cache.go:71-92 | remembering again changes nothing but the time |
| HubCache.Cache.Resolver | hub/cache.go:102-112 | the table over the invites of the cached hubs |
| HubCache.CacheKeepsInvite | hub/spoke.go:515-527 | an invite that has been cached comes out with its addresses in 16 bytes, the default port and no expiry |
| HubCache.InviteOfIff | hub/cache.go:114-130 | exactly the entries with a key of 32 bytes that are cloud seeds, or have an IPv6 address that parses, have an invite, which has their key, port, name and flag and no expiry |
| HubCache.EntryShowsCode | hub/spoke.go:515-527 | an entry made from an invite shows its code with a hyphen in the middle |
| HubCache.CacheKeepsBytesIff | hub/cache.go:114-130 | the fingerprinted bytes survive the cache exactly when the encoded expiry is 0 |
| HubCache.CodeSurvivesCacheIff | hub/cache.go:114-130 | the short code survives the cache exactly when the encoded expiry is 0, or the hash collides on the two byte strings with and without it |
| HubCache.GivenOutLosesBytes | hub/server.go:148-166 | an invite that a hub gives out does not keep its fingerprint in the cache |
| HubCache.GivenOutIff | hub/server.go:148-166 | a hub can give out an invite exactly if it has a key, and is a cloud seed, has an IPv6 address of its own, or has none in development |
| HubCache.GivenOutReads | hub/server.go:148-166 | from the blob a reader learns the key, port, flag and name of the hub, an expiry a week later, its IPv6 address or the loopback address in development, and its IPv4 address only if it claims one |
| HubCache.RememberHolds | hub/spoke.go:456-459 | an invite that has just been remembered is held by the cache as the cache makes it |
| HubCache.CodeThroughCache | hub/spoke.go:529-544 | the original code of a hub in the cache, however typed, is looked up among the cached and the community hubs: absent a collision with another hub it finds the hub if and only if the code has survived, and otherwise fails with `ErrShort` |
| HubCache.CommunityWins | hub/spoke.go:529-544 | the code of a community hub decodes to its invite whatever is cached, if no later community hub has the same code |
| DialOrder.StrictWeakOrder | hub/cache.go:161-174 | the comparator is a strict weak order |
| DialOrder.LessIsRank | hub/cache.go:161-174 | it compares by round trip, unknown last, and then by the hub seen last |
| DialOrder.SortedIsStableSort | hub/cache.go:160-174 | the sort orders the list and keeps tied hubs in the order they had |
| DialOrder.StableSortUnique | hub/cache.go:160-174 | that contract determines the result |
| DialOrder.Add | hub/cache.go:159-186 | the closure appends the hubs of the sorted list whose key is new, and marks the keys of all |
| DialOrder.Dial | hub/cache.go:156-202 | the six passes give the merged list |
| DialOrder.DialsEachOnce | hub/cache.go:156-202 | no key comes twice, and the keys are exactly those of the five inputs |
| DialOrder.SameHubIff | hub/cache.go:176 | two entries are taken for the same hub if and only if key and both addresses are equal, the texts of addresses being without bars |
| DialOrder.DialsEachHubOnce | hub/cache.go:156-202 | for each hub of the five lists exactly one entry has its key and its addresses |
| DialOrder.DialledFrom | hub/cache.go:175-186 | an entry is one of the five lists unchanged, but for a source that was not set, which becomes that of its list |
| DialOrder.MergeBest | hub/cache.go:159-186 | every hub is from the first list that has its key, and none of that key is better placed in that list |
| DialOrder.DialsInOrder | hub/cache.go:156-202 | earlier means first found in an earlier list, in the order open, cached, community, fresh, seeds, cached seeds; or in the same one with the lower round trip, unknown ones last, among open and cached hubs, and else seen later |
| Spokes.Spoke.Candidates | hub/spoke.go:431-484 | the hubs of the open session, the cache, the community, the invites read with the one set by hand, and the cloud seeds of invites and configuration, each once: those that failed less than thirty seconds ago last, and within each half in the order of these lists; the cache is that of the scan |
| Spokes.Spoke.ScanInvites | hub/spoke.go:450-465 | the loop over the invites leaves the lists and the cache of the scan, of which the next six rows speak |
| Spokes.ScanSplits | hub/spoke.go:450-465 | the lists are the hubs of the invites read, in order, cloud seeds apart, each text decoded against the cache as it then was |
| Spokes.ScanKeepsCache | hub/spoke.go:456-459 | the cache keeps one entry for each key, old entries keep their places and change only if their key was read, and of every key read it holds all that the last invite of it says |
| Spokes.ScannedAreCached | hub/spoke.go:456-464 | every hub that an invite gave is in the cache, stamped with this call |
| Spokes.CodeAfterBlob | hub/spoke.go:450-465 | a short code that comes anywhere after the full blob of its hub finds that hub exactly when the blob had no expiry, or the hash collides, absent a collision with another hub |
| Spokes.BlobThenCode | hub/spoke.go:450-465 | from text to text: after the blob of any invite but a hub at `::`, with no later text read as an invite of its key, its code in any writing is found exactly when the invite has no expiry, or the hash collides, and otherwise is `ErrShort`, absent a collision with another hub |
| Spokes.GivenOutBlobThenCode | hub/server.go:148-166 | so the code of an invite that a hub gives out before 2106 is `ErrShort` after its blob, unless the hash collides |
| Spokes.Spoke.AddInvite | hub/spoke.go:425-429 | the text is appended to the invites, and nothing else changes |
| Spokes.PartitionIn | hub/spoke.go:475-483 | the candidates are a permutation of the dial list |
| Spokes.PartitionOrder | hub/spoke.go:475-483 | hubs that have not failed lately come first, and both halves keep the order |
| Spokes.CandidatesRanked | hub/spoke.go:475-484 | whatever the lists: late failures last, and within each half a hub that is first found in an earlier list comes first, with round trips and last sightings in order within a list |
| Spokes.CandidatesGather | hub/spoke.go:474-484 | no hub twice, and exactly the hubs of the lists |
| Spokes.SameFailuresIff | hub/spoke.go:486-488 | two entries share their failures if and only if key, both addresses and port are equal |
| Spokes.Spoke.NoteFail | hub/spoke.go:490-497 | the moment is recorded under the key of the hub, and nothing else changes |
| Spokes.Spoke.ClearFail | hub/spoke.go:499-503 | exactly that entry is removed |
| Spokes.FailureWindow | hub/spoke.go:490-513 | a noted failure counts for thirty seconds or until it is cleared, and not for an entry that differs in key, an address or the port |

## Left out

- Sockets, QUIC, TLS, listeners, deadlines, keep-alive, LAN beacons, the HTTP interface, the command
  line, the user interface and QR printing.
- Cryptography: Ed25519, the sealed box and SHA-256 are parameters or absent.
- JSON: message bodies are bytes, and files are not modelled (`OpenCache`, `Save`, the offline queue).
- Servers.Server.GossipLocal: the names, X25519 keys and bloom filter of a round are not modelled, because
  they do not influence routing. Gossip to spokes is modelled in the class and not in the network.
- Servers.Server.OnGossip: the names and X25519 keys that entries update are not modelled, for the same
  reason.
- Servers.Server.OnPresence: the name and X25519 key of the announcement are not modelled, for the same
  reason.
- Servers.Server.Connect: takes a session whose hello has been verified, and leaves out its names and
  addresses.
- Session churn: links, spokes and registered sessions are fixed during a run of the network. A late
  `drop` can remove a newer session of the same key, as `Servers.Server.Disconnect` does, and a restarted
  hub numbers its rounds from 1 again; neither happens in the network. Any hub may send a round at any
  moment, which is more than the handlers do; the runs that are exhibited send one only on presence.
- Gossips.GossipConverges: takes `gossipLocal` as one atomic step. The code numbers a round before it
  takes the lock (`hub/server.go:352-354`), so two overlapping calls could record their numbers out of
  order; that a hub's own entry in `gseen` grows depends on the atomicity. Sequence numbers do not
  wrap at 2^64.
- Delivery.DeliveryIsReachability: no ID is swept from a seen set during the run, sends do not fail, and
  the hops that hints name for the addressee stay; in `DeliveryMeanwhile` they come and go, but name no
  hub other than home. `SeenIds.DedupWindow` says when a sweep can forget an ID.
- Arrangements.DeliveryInArrangement: the same, and the envelope is handed in at one hub.
- Servers.Server.Forward: states the routing tables after the call only below 4096 remembered IDs;
  above, the seen set is as `SeenIds.AddTo` says.
- Termination.ForwardingTerminates: like the delivery theorem without eviction of IDs.
- Go's `encoding/base32`: how it treats characters outside the alphabet and malformed lengths. The
  theorems need only that it decodes what it encodes.
- Unicode in `Decode` and `decodeInvite`: letter case and white space are those of ASCII. A Dart string
  is kept as its UTF-8 bytes, and decoding drops a leading byte order mark as Dart's library does.
- DartTheorems.DecodersAgree: the name is compared after a leading byte order mark has been dropped.
- Addresses of lengths other than 4 and 16 bytes on their way through the cache.
- Spokes.Spoke.Candidates: reads the clock once, where the code reads it for every hub, so the recent
  failures are fixed during the call. A cache is always present, as `NewSpoke` provides one; the branches
  for a missing cache are left out.
- HubCache.Cache.Remember: the entries of the cache are values, so copies handed out by `List` cannot
  alias them, as in the code; its lock is not modelled.
- `helloSignedBytes`, `helloOKBytes`, capability probing, backoff, `Priority` and `Status`: short case
  splits without properties that span operations.
