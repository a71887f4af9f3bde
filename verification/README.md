# Kerberos and GSS-API demo programs: a verified model

The repository holds demo clients and servers around Kerberos and the GSS-API. Three parts of it carry
state, arithmetic and protocol structure, and this project models them in Dafny and proves what they promise.

**The token session** (`application/gssapi`). `utils.c` frames tokens as a 32-bit length and a body, over reads
and writes that may be short. `client.c` and `server.c` exchange tokens until the mechanism completes; then the
client sends a wrapped message and the server confirms it with a MIC.

- `Streams`, `StreamProofs`, `Framing`: the loops over a socket whose answers (chunk sizes, errors) are arbitrary.
  The source advances the buffer by the size of the *last* chunk. Both that form (`LastChunk`) and the form that
  accumulates (`RunningTotal`) are modelled, and it is proved when they agree: exactly for calls of at most two chunks.
- `Session`: client and server as processes over two octet channels. A scheduler picks every move: the process, the
  chunk size, the contents of unset memory, failures, reads of 0 octets. A GSS mechanism is any set of functions; a
  context is the list of tokens it has been given.
- `SessionSafety`: every run. `Exchange`, `SessionProgress`, `SessionResults`: failure-free runs of every n-leg
  mechanism. The invariant is that octets read ahead, in the channel and still to be written always are the frames owed.
- `ServerAsWritten`: the server sets its context to "none" on every pass (`server.c:256`). It is proved that it can
  complete every n-leg exchange if and only if n is 1 or 2.
- `Programs`, `ClientProgram`, `ServerProgram`: the same two programs as sequential code with their loops and their
  error paths, proved to follow the processes of `Session`; both work over a ledger of handles.
  `PartyMoves` ties the processes' calls to the loops of `utils.c`, `ProgramResults` carries results between the
  programs and the processes.

**The token grammar and its decoder** (`gssapi-parser`). `Asn1` has grammars as data, with an encoder and an
incremental decoder (ok, more octets wanted, failure); `Asn1Proofs` proves, for every grammar, that the decoder is the
exact inverse of the encoder, and `Verdicts` when it fails or wants more. `Tokens` holds `gssapi.asn1` as a grammar and
as typed values, `TokenProofs` what follows for whole tokens, `TokenOctets` their octets with literal tags, `KnownOctets`
encodings worked out by hand. `Oid`, `Decoder` and `HexDump` are the rest of `decoder.c`.

**The reference client and server** (`application/reference-code`). `NetRead` is the accumulating read loop, `Reply`
the bounded reply string, its 16-bit length and its read-back.

Four things the source does differently from its evident intent, kept as they are:

- the buffer offset in `read_all` and `write_all` (`utils.c:105`, `utils.c:122`): see `ReadAllExact`, `WriteAllExact`;
- a read of 0 octets does not end `read_all` (`utils.c:103-112`): see `EndOfStreamSpins`;
- the server's context is reset on every pass (`server.c:256`), although the comment at `server.c:266` speaks of the
  first call only: see `AsWrittenIff`, `ForgetfulServerIff`;
- `sign_message` deletes its own copy of the context after a failure and still returns 0, and `talk_to_client` deletes
  the same context again (`server.c:371`, `server.c:394`, `server.c:401`, `server.c:452`): see `TalkToClient`.

## Model

| member | source | states |
|---|---|---|
| Streams.ReadAll | application/gssapi/utils.c:99-114 | for every sequence of answers, the loop stores, consumes and returns what the recursive reading of the code says, in either offset form, never outside the buffer |
| Streams.WriteAll | application/gssapi/utils.c:116-132 | the same for writing |
| Streams.SendToken | application/gssapi/utils.c:142-161 | the low 32 bits of the length in network order, then all octets of the token, each by its own write loop; a failure ends it |
| Streams.RecvToken | application/gssapi/utils.c:172-193 | four octets of length, then that many octets into fresh memory whose contents nobody has set |
| Streams.ReadCountExact | application/gssapi/utils.c:105-105 | a read brings the least of what is granted, asked for and there |
| StreamProofs.ReadConsumes | application/gssapi/utils.c:103-112 | a call that ends well has taken exactly `len` octets from the stream, with either offset |
| StreamProofs.ReadAccumulates | application/gssapi/utils.c:99-114 | with the running total, the buffer holds a prefix of the stream in place, however it is cut |
| StreamProofs.ReadAllExact | application/gssapi/utils.c:99-114 | chunks that add up to `len` reproduce every stream over every earlier buffer with the offset as written if and only if there are at most two |
| StreamProofs.LastNeverRead | application/gssapi/utils.c:105 | with three or more chunks the last octet of the buffer is never written |
| StreamProofs.WriteAllExact | application/gssapi/utils.c:116-132 | the same characterisation for writing: with a third chunk the last octet is never sent |
| StreamProofs.ReadFails | application/gssapi/utils.c:106-109 | a read call fails if and only if one of its reads does, an interrupted one included, and that is its last |
| StreamProofs.WriteFails | application/gssapi/utils.c:123-127 | the same for writing |
| StreamProofs.EndOfStreamSpins | application/gssapi/utils.c:103-112 | on a stream that ends early the call never ends: it asks for as long as it is answered |
| StreamProofs.ReadEndsIff | application/gssapi/utils.c:103-112 | with error-free answers, one for each octet at worst, the call ends if and only if the stream holds enough |
| Bytes.Big32RoundTrip | application/gssapi/utils.c:145-145 | the network-order length gives back the length modulo 2^32 |
| Framing.TokenSurvives | application/gssapi/utils.c:142-193 | one token survives sending and receiving, leaving the stream at a frame boundary, if and only if it is shorter than 2^32 |
| Framing.FramingRoundTrip | application/gssapi/utils.c:142-193 | accumulating loops carry every list of shorter tokens across, whatever the chunks on both sides |
| Framing.FramingComplete | application/gssapi/utils.c:142-193 | with enough answers and no errors both sides do end, the list arrives, the rest of the stream is untouched |
| Framing.FramingAsWritten | application/gssapi/utils.c:99-193 | the code as written carries every list across when no call needs more than two chunks |
| Framing.FramingExact | application/gssapi/utils.c:99-193 | exactly: as written, a list of tokens arrives whatever memory held if and only if no call of the receiver takes more than two chunks |
| Framing.SendExact | application/gssapi/utils.c:116-161 | exactly: as written, every token of one length is sent as its frame if and only if the header goes out as it is and the body takes at most two chunks |
| SessionSafety.DeliveryConfirmed | application/gssapi/client.c:382-564 | in every run, with either offset and any failures, a client that returns 0 shares its key with a context the server has completed, and the one MIC taken is over exactly the message with its NUL |
| SessionSafety.ForgetfulServerFails | application/gssapi/server.c:248-313 | a mechanism whose acceptor needs a second call never completes with the server as written, and no client returns 0 |
| ServerAsWritten.AsWrittenIff | application/gssapi/server.c:248-313 | the server as written can finish every n-leg session if and only if n is 1 or 2 |
| ServerAsWritten.CanFinishAll | application/gssapi/server.c:248-313 | with its context kept, or called once, it can finish for every n |
| Exchange.ActAt | application/gssapi/client.c:214-286 | in an n-leg exchange each side acts on the legs, the wrapped message and the MIC in that one order |
| SessionProgress.MoveKeeps | application/gssapi/utils.c:99-193 | every move keeps: read ahead, in the channel and unwritten together are the frames owed; and every move is progress |
| PartyMoves.TransfersWrite | application/gssapi/utils.c:116-132 | whatever chunks a write in a session takes, it puts on the channel what write_all, with the same offset, writes in those chunks |
| PartyMoves.TransfersRead | application/gssapi/utils.c:99-114 | whatever chunks a read in a session takes, reads of 0 octets included, it stores what read_all, with the same offset, stores in those chunks |
| PartyMoves.WritesTransfer | application/gssapi/utils.c:116-132 | and every write_all can take place in a session, chunk by chunk |
| PartyMoves.ReadsTransfer | application/gssapi/utils.c:99-114 | and every read_all |
| PartyMoves.ThirdChunkLost | application/gssapi/utils.c:105-105 | so with a third chunk the last octet of a buffer that is read in a session, as written, is never set |
| PartyMoves.FailsAnywhere | application/gssapi/server.c:303-308 | a call may fail at any point: a client ends, a server goes on after a failed send without its context and ends after a failed receive |
| SessionResults.NeverStuck | application/gssapi/client.c:214-286 | in every state of the invariant some side can move unless both programs have returned 0 |
| SessionResults.Progress | application/gssapi/server.c:248-313 | so a failure-free run that has not finished can always go on, for every n and every chunking |
| SessionResults.EveryRunFinishes | application/gssapi/client.c:214-286 | every failure-free run ends with both programs returning 0, by actions left, octets to write, octets in flight |
| SessionResults.ChannelShape | application/gssapi/client.c:248-286 | at most one unread frame towards the client, at most two towards the server, two only for the last leg and the wrapped message, never frames both ways |
| SessionResults.FinishedSession | application/gssapi/client.c:251-282 | a finished session leaves empty channels; the k-th recorded token is the same on both sides, even ones sent by the client, odd ones received; the MIC over the message has been taken |
| Programs.MovesAreEvents | application/gssapi/client.c:214-286 | every move of a party in the interleaved model is an event of its path, or no event yet; the sequential programs are proved to follow such paths |
| ProgramResults.PathIsRealised | application/gssapi/client.c:214-286 | the other way: every path that a sequential program follows is brought about by moves of its party, which read the frames of the tokens received, write those of the tokens sent, record the handshake and issue the MICs taken |
| ProgramResults.ReplayIsRealised | application/gssapi/client.c:214-286 | and with the very octets: what the calls of a program wrote and read on its path, with either offset, in whatever chunks and up to a failed send, its party can write and read in a session |
| ProgramResults.ReplayedFrames | application/gssapi/utils.c:142-193 | with accumulating offsets a program's calls have read the frames of the tokens received and, without failed sends, written those of the tokens sent |
| ProgramResults.AsWrittenFrames | application/gssapi/utils.c:99-193 | and so as written, when no call on the path takes more than two chunks |
| ProgramResults.ProgramsConfirmDelivery | application/gssapi/client.c:382-564 | for every path of the client program that returns 0, given the MICs taken on a path of the server program: the server had completed a context with the key of the client's completed context, the token it received next unwrapped under that key to exactly the message with its NUL, and the one MIC it took is over it |
| Programs.RecvIsFrame | application/gssapi/utils.c:172-193 | what a receive takes from the stream is the frame of the token it returns |
| ClientProgram.EstablishContext | application/gssapi/client.c:188-290 | the loop follows the client process to the end of the handshake, or to its failure; its streams are, octet by octet and with either offset, those of the send_token and recv_token calls of its tokens, and so is the recording; one context stays live, or on failure the one not deleted |
| ClientProgram.SendAndReceive | application/gssapi/client.c:248-284 | one round: the token goes out, the next one comes in if the mechanism continues; what a failure releases and what it keeps |
| ClientProgram.ShowContext | application/gssapi/client.c:390-487 | names and name strings are all released again, on success and on failure, when the context goes too; it succeeds exactly when none of its calls fails |
| ClientProgram.SendMessage | application/gssapi/client.c:499-530 | what is sent is the wrapped message with its NUL; a failure releases nothing but the wrapped message |
| ClientProgram.CheckMic | application/gssapi/client.c:532-551 | the process decides on the MIC; without one the socket is kept, with a refused one the context and the MIC's buffer |
| ClientProgram.CallServer | application/gssapi/client.c:342-565 | the result is the process's, but for a context that could not be deleted; returning 0, seven handles and one buffer per token were acquired and every one has been released, once; returning -1, at most two are kept; nothing is used after release on any path; on success, and on any return when nothing outside failed, the result is what the mechanism decided on the tokens received |
| ClientProgram.ClientDecides | application/gssapi/client.c:234-240 | without failures outside, -1 means that gss_init_sec_context refused exactly the tokens received so far, or that the context they completed refused the token received last as MIC; 0 means that it accepted it |
| ServerProgram.EstablishContext | application/gssapi/server.c:236-328 | the loop follows the server process, with its context reset and with failed sends that do not end it; it fails exactly where the process does; credentials and the client's name are released, and as many contexts are lost as tokens came in over one |
| ServerProgram.SignMessage | application/gssapi/server.c:345-407 | it returns 0 after failed unwraps and sends too; a MIC is taken exactly when the token this call received unwraps under the context's key and GetMIC does not fail, and over what was unwrapped; the caller's context is still alive exactly when the MIC was taken and sent |
| ServerProgram.TalkToClient | application/gssapi/server.c:409-456 | the server process from first token to last, with the process's result; the MICs taken on the way are the one that was signed, over a message its completed context unwrapped, or none; on 0, no handle is released twice if and only if no unwrap, GetMIC or send failed under a context, and of the handles exactly the overwritten contexts are kept |
| ServerProgram.ForgetfulServerIff | application/gssapi/server.c:248-313 | the server as written can complete a context, whatever it is sent, if and only if some single token completes its acceptor |
| ServerProgram.ServerFails | application/gssapi/server.c:250-312 | the server returns -1 only when a receive or gss_accept_sec_context failed, or its mechanism refused exactly the tokens its context held; a failed send never makes it |
| Asn1Proofs.ElemRoundTrip | gssapi-parser/gssapi.asn1:6-52 | for every grammar whose alternatives differ in their first octet, decoding an encoding followed by anything gives the value and its length |
| Asn1Proofs.ElemCanonical | gssapi-parser/gssapi.asn1:6-52 | whatever is accepted is the encoding of the value returned, at every nesting level |
| Asn1Proofs.ElemStable | gssapi-parser/decoder.c:60-64 | OK and FAIL verdicts survive the arrival of more octets |
| Asn1Proofs.DecodeIffEncoded | gssapi-parser/gssapi.asn1:6-52 | accepted with this value if and only if it starts with the encoding of this value |
| Asn1Proofs.PrefixWantsMore | gssapi-parser/decoder.c:60-64 | every strict prefix of an encoding asks for more |
| TokenOctets.TrailingZerosExact | gssapi-parser/gssapi.asn1:44-52 | the unused bits of the last octet of flags: of an odd number shifted left by k, exactly k |
| Verdicts.LengthVerdict | gssapi-parser/decoder.c:60-64 | exactly which length octets fail (indefinite, reserved, longer than necessary) and which are cut |
| Verdicts.ElemVerdict | gssapi-parser/decoder.c:60-64 | for every grammar: a wrong first octet or bad length octets fail at once, cut length octets want more, an incomplete element is never accepted, a complete one never wants more |
| Verdicts.FailsIffNoValue | gssapi-parser/decoder.c:60-64 | a complete element fails exactly when its octets start with no encoding of any value |
| Verdicts.EventuallyDecided | gssapi-parser/decoder.c:60-64 | no octet string asks for more for ever |
| Verdicts.NegotiationVerdict | gssapi-parser/decoder.c:60-64 | when a SPNEGO token fails or wants more, by its octets: anything but 0xA0 or 0xA1 in front, and 0x30 inside, fails |
| Verdicts.InitialContextVerdict | gssapi-parser/decoder.c:80-81 | the same for initial tokens and 0x60 |
| TokenProofs.GrammarDistinct | gssapi-parser/gssapi.asn1:16-42 | no two alternatives or optional components of the grammar can be confused |
| TokenProofs.NegotiationRoundTrip | gssapi-parser/gssapi.asn1:16-42 | any presence pattern, mechanism list and lengths, with any extension elements and anything behind: the token comes back |
| TokenProofs.NegotiationAccepts | gssapi-parser/gssapi.asn1:16-42 | the accepted octets are exactly the encodings of the token with some extension elements |
| TokenProofs.NegotiationCanonical | gssapi-parser/gssapi.asn1:16-42 | without extension elements each token has one accepted encoding |
| TokenProofs.NegotiationStable | gssapi-parser/decoder.c:60-64 | verdicts on SPNEGO tokens are final |
| TokenProofs.NegotiationPrefix | gssapi-parser/decoder.c:60-64 | a cut SPNEGO token asks for more |
| TokenProofs.ExtensionTolerance | gssapi-parser/gssapi.asn1:28-41 | elements with unknown tags at the end, lengths recomputed, decode to the same value as without them |
| TokenProofs.InitialContextAccepts | gssapi-parser/gssapi.asn1:6-9 | an initial token is accepted exactly in its one encoding |
| TokenProofs.InitialContextRoundTrip | gssapi-parser/gssapi.asn1:6-9 | decoding its encoding followed by anything gives it back |
| TokenProofs.InitialContextStable | gssapi-parser/decoder.c:80-81 | verdicts on initial tokens are final |
| TokenProofs.InitialContextPrefix | gssapi-parser/decoder.c:80-81 | a cut initial token asks for more |
| TokenProofs.AnyReadsNegotiation | gssapi-parser/gssapi.asn1:8-8 | for SPNEGO, reading the inner token as ANY takes the same octets as reading the opaque rest |
| TokenOctets.NegotiationOctets | gssapi-parser/gssapi.asn1:14-42 | every NegTokenInit and NegTokenResp octet by octet, with literal tags in literal nesting, and when it can be encoded |
| TokenOctets.InitialOctets | gssapi-parser/gssapi.asn1:6-9 | every InitialContextToken octet by octet |
| TokenOctets.FlagContentsMean | gssapi-parser/gssapi.asn1:44-52 | the flags are all there but for trailing zero bits |
| TokenOctets.MarkerVerdict | gssapi-parser/gssapi.asn1:21-42 | at the extension marker, tags [0] to [3] fail and every other well-formed element is skipped |
| KnownOctets.Lengths | gssapi-parser/gssapi.asn1:6-9 | the DER length octets of chosen lengths |
| KnownOctets.KerberosInitialToken | gssapi-parser/gssapi.asn1:6-9 | the octets of every short Kerberos initial token |
| KnownOctets.FlagOctets | gssapi-parser/gssapi.asn1:44-52 | the octets of chosen context flags |
| KnownOctets.RespToken | gssapi-parser/gssapi.asn1:31-42 | the octets of a response with two components present and two absent |
| KnownOctets.InitToken | gssapi-parser/gssapi.asn1:21-29 | the octets of an offer of one mechanism |
| KnownOctets.FullInitToken | gssapi-parser/gssapi.asn1:21-29 | the octets of an offer with every component |
| KnownOctets.TagFourSkipped | gssapi-parser/gssapi.asn1:31-42 | a response with an element tagged [4] behind its components, as octets: decoded as without it |
| KnownOctets.Identifiers | gssapi-parser/gssapi.asn1:4-4 | the contents of identifiers under each first arc, 2.100.3 and 2.999.3 among them |
| KnownOctets.NetworkOrder | application/gssapi/utils.c:145-145 | the high octet comes first, in 32 and in 16 bits |
| KnownOctets.FrameOctets | application/gssapi/utils.c:142-161 | frames as octets |
| KnownOctets.States | gssapi-parser/gssapi.asn1:31-37 | the numbers of the four states |
| Oid.OidRoundTrip | gssapi-parser/gssapi.asn1:4-4 | decoding undoes encoding for arcs of any size |
| Oid.OidCanonical | gssapi-parser/gssapi.asn1:4-4 | accepted contents are the encoding of the arcs read |
| Oid.OidInjective | gssapi-parser/gssapi.asn1:4-4 | different identifiers have different contents, and the other way round |
| Verdicts.OidAccepted | gssapi-parser/gssapi.asn1:4-4 | accepted are exactly the contents in which every subidentifier ends and none starts with a zero digit |
| Decoder.MechanismTable | application/gssapi/utils.h:17-25 | the table's octets are 1.3.6.1.5.5.2 and 1.2.840.113554.1.2.2 |
| Decoder.CheckIfSpnego | gssapi-parser/decoder.c:29-51 | 1 exactly when the contents mean 1.3.6.1.5.5.2 |
| Decoder.ParseSpnego | gssapi-parser/decoder.c:54-72 | a readable dump, then the token or the kind of failure; exit code 0 exactly for a decodable token |
| Decoder.ParseGssapi | gssapi-parser/decoder.c:75-98 | the initial token, and for SPNEGO the inner one as well |
| Decoder.DecodeFile | gssapi-parser/decoder.c:101-149 | files with one token and anything behind: decoded when the token fits 2048 octets, reported as broken (wanting more) when it does not; for every other file, exit code and output by the verdict on its first 2048 octets |
| Decoder.CutInitialContext | gssapi-parser/decoder.c:103-122 | the first 2048 octets of a longer initial token always ask for more |
| Decoder.CutNegotiation | gssapi-parser/decoder.c:103-122 | and of a longer SPNEGO token |
| HexDump.PrintBytes | gssapi-parser/decoder.c:13-27 | every index once and in order, none past the end, for every size |
| HexDump.DumpReadsBack | gssapi-parser/decoder.c:13-27 | reading the dump gives the bytes back |
| HexDump.DumpRows | gssapi-parser/decoder.c:17-26 | size / 16 full rows and one last row of the remaining bytes, empty for multiples of 16 |
| HexDump.KnownDump | gssapi-parser/decoder.c:22-25 | dumps as text: two lower-case digits and a blank for each byte |
| NetRead.NetReadInto | application/reference-code/sclient.c:62-87 | the do/while loop is the recursive reading of it, for every sequence of answers |
| NetRead.NetReadCounts | application/reference-code/sclient.c:62-87 | the result counts the octets copied, they are that prefix of the stream, fewer than asked only at its end |
| NetRead.NetReadFails | application/reference-code/sclient.c:69-77 | -1 is returned if and only if one of the reads of the call failed for good, whatever had been read by then and whether or not the stream had ended |
| NetRead.InterruptsChangeNothing | application/reference-code/sclient.c:69-72 | interrupted reads change neither result nor buffer nor stream, if and only if something is asked for |
| NetRead.NetReadReturns | application/reference-code/sclient.c:67-85 | without errors and with a read for each octet at worst, interrupts coming on top, the call returns |
| NetRead.ReadAllRefines | application/reference-code/sclient.c:62-87 | while the stream holds what is asked for, the accumulating read_all does what net_read does, failures included, unless a read is interrupted |
| NetRead.NetReadEnds | application/reference-code/sclient.c:78-80 | on a shorter stream net_read returns what there was where read_all spins |
| Reply.Strncpy | application/reference-code/sserver.c:220-220 | at most n octets, padded with NULs up to n |
| Reply.Strncat | application/reference-code/sserver.c:221-222 | the string grows by at most n octets and stays terminated inside the buffer |
| Reply.BuildReply | application/reference-code/sserver.c:213-224 | the string in the buffer is the first BUFSIZ - 1 octets of the greeting, for every name and every BUFSIZ |
| Reply.GreetingSpells | application/reference-code/sserver.c:214-223 | the greeting as text: "You are ", the name or "<unparse error>", a line break |
| Reply.SendReply | application/reference-code/sserver.c:225-237 | its 16-bit length in network order, then the string |
| Reply.ReadReply | application/reference-code/sclient.c:229-249 | two net_read calls; an empty one or an error aborts |
| Reply.ReplyReadBack | application/reference-code/sclient.c:229-249 | whatever the chunks and interrupts, the client gets the first (length mod 65536) octets, and aborts when there are none |
| Reply.ReplyAborts | application/reference-code/sclient.c:229-249 | for every stream and every answers: the client gives up if and only if a read failed for good, the stream ended before the body, or the length is 0 |
| Reply.ReplyShown | application/reference-code/sclient.c:235-249 | otherwise it shows as many octets as the length says, those after the end of the stream as the heap held them |
| Reply.ReplyPending | application/reference-code/sclient.c:229-249 | it still waits exactly while one of its two calls does |
| Reply.ReplyRoundTrip | application/reference-code/sserver.c:213-237 | with enough reads that do not fail both calls return, and the client shows exactly the server's string if and only if it is not empty and its length fits 16 bits; so for every BUFSIZ from 2 to 65536 |

## Left out

- The GSS-API, libkrb5 and their cryptography are foreign calls: a mechanism is any set of functions under the contracts stated in `Session` and `Exchange`.
- `gss_inquire_context`, `gss_wrap_size_limit`, `gss_display_name`, `gss_import_name` and `gss_delete_sec_context` only succeed or fail, arbitrarily (`Programs.Faults`).
- ClientProgram.CallServer: on failing paths, where several early returns of the source keep the context or the socket, the memory of a token received in part is not counted.
- ServerProgram.TalkToClient: starts at the accepted connection with the credentials acquired, so the listening socket, which the source never closes, is not among its handles; on failing paths (result -1) it says nothing about handles. A buffer or name that the source releases twice through the same descriptor counts once, since the first release clears it.
- ServerProgram.SignMessage: after a failed unwrap the source goes on with unset buffers; the model sends an empty token, the value a failing GetMIC leaves.
- SessionResults.EveryRunFinishes: with the offset as written it is stated for runs in which no call needs more than two chunks, since `ReadAllExact` shows that a third one corrupts.
- Interrupted system calls are errors to `read_all`, as in the source; a scheduler that never runs a process again is no run.
- Allocation failure, and the width of the `int` that holds the size of one chunk (the system transfers less than 2^31 octets at a time).
- The generated ASN.1 code is not in the repository. The grammar has its DER meaning: BER forms that are not DER, such as indefinite lengths, are rejected here; the number of octets consumed is given for accepted tokens only.
- The trouble with ENUMERATED noted in `gssapi-parser/README.md`, which lies in the generated code.
- An element with one of the tags [0] to [3] out of its place is an error at the extension marker; every other tag is skipped, its contents unread.
- Sockets, name resolution, `connect` and `accept`, opening files: one stream in each direction, and a log of recorded tokens instead of files.
- Argument parsing, usage texts, printing of statuses, flags and mechanisms, `test_mech_str` and `test_mech_oid`: user interface and look-ups.
- `application/krb5-api` and `application/gssapi/test.c`: straight-line library calls. The authentication calls of the reference programs (`krb5_sendauth`, `krb5_recvauth`).
- Container files, shell scripts, Makefiles and Kerberos configuration.
