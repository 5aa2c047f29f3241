# Verified models of mitmproxy's layers, codecs and caches

This Dafny project models the parts of mitmproxy (and of the `midman` traffic reporter that is built on it)
that carry state or must invert each other, and proves what they promise:

- **Layers** (`Layer.dfy`, `LayerStack.dfy`, `NextLayer.dfy`, `Tunnel.dfy`, `TunnelInvariant.dfy`, `TunnelRuns.dfy`,
  `TunnelCommands.dfy`, `TunnelDuties.dfy`, `ReplyPath.dfy`, `TcpLayer.dfy`, `TcpInvariant.dfy`, `TcpRuns.dfy`,
  `TcpScript.dfy`). A protocol layer runs a handler coroutine,
  pauses on a blocking command, buffers what arrives meanwhile and replays it after the reply. A coroutine is a
  resumption tree (`Proc`); the world a handler can see besides its own state is a parameter of each call. The engine
  is proved equal to a machine that simply blocks, alone and in stacks of any depth. `NextLayer` and the TCP relay run
  on this engine, and what is proved of them holds for every run and every delay of the replies. The tunnel interprets
  its child's commands and can be called again in the middle of that, without bound, so that it is no resumption tree:
  it is a machine of its own with explicit frames, which pauses, buffers and replays by the same rules
  (`TunnelRuns.ArrivalsReachChild`, `TunnelRuns.PausesOnItsOwn`). What `NextLayer` and the TCP relay say is also given
  as a script over what they handle and are answered, without coroutines, and so are what the tunnel owes, what it
  answers its child, and what becomes of its child's commands. `ReplyPath.dfy` brings the three together: a reply
  on its way through any nesting of them. One call is drained before the next one begins, as the lock in
  `mitmproxy/proxy/server.py` sees to.
- **Flow files** (`Bytes.dfy`, `Tnetstring.dfy`, `FlowFile.dfy`, `Serializable.dfy`, `StateReading.dfy`,
  `FlowState.dfy`). The netstring
  printer that fills a deque back to front, the parser, the stream reader that reads its length prefix byte by byte, the
  codec between objects and states that is directed by declared types, and all of them one after another: objects that
  were written to a file are read back from it.
- **HTTP and TLS codecs** (`Cookies.dfy`, `ClientHello.dfy`, `Assemble.dfy`, `Framing.dfy`). Set-Cookie scanning and
  formatting, extraction of a ClientHello from records and chunks, the chunked coding, and body lengths.
- **Caches and maps** (`Encoding.dfy`, `HttpMessage.dfy`, `MultiDict.dfy`, `CertStore.dfy`).
- **The reporter** (`Reporter.dfy`). Which plaintexts a check reports, keeps or loses.

`Options.dfy`, `Seqs.dfy` and `Chars.dfy` hold what the modules share. Operations that change state are classes and
methods with loops; each is proved equal to a function on values, and the properties are lemmas about those functions.

## What came out

Some promises do not hold of the code on all inputs. The models keep the code as it is and say when they hold:

- A Set-Cookie header does not come back when an `expires` value has no comma and at most three characters, or an
  `expires` or `path` value has another of the shapes excluded by `Cookies.Survives`. `Cookies.RoundTripExactly` is an
  equivalence, for any list of cookies; `Cookies.ShortExpiresIsLost` gives the family to which `expires=0` belongs.
- A tunnel on an open connection shows its child Start before a handshake has ended when `start_handshake` gives up, as
  that of a server-side TLS layer does while it waits for a ClientHello: `TunnelRuns.SilentExactly` is an equivalence,
  `TunnelRuns.GivingUpShowsStart` an input.
- An OpenConnection can be answered twice, because the command to reply to is not cleared after a failed connection
  attempt: `TunnelRuns.OneReplyExactly` is an equivalence, `TunnelRuns.AskingTwiceIsAnsweredTwice` an input, and
  `TunnelRuns.OneReplyPerOpen` shows that it does not happen to a child that waits for its answers.
- The in-memory parser takes a negative length prefix, counts it from the end, and after the length -1 leaves all of the
  data as the rest: `Tnetstrings.PopAtLength`. The stream reader refuses such a prefix (`FlowFiles.LoadExactly`).
- A header name or a Content-Length with a newline at its end is let through (`Framing.NameExactly`,
  `Framing.LengthExactly`).
- A certificate under the empty name is not returned by a lookup that finds it first: `CertStores.LookupReturnsFirst`
  says for every store what is returned.
- The expire queue of the certificate store and its generated keys get out of step when a certificate was added under
  the empty name: the store takes a match of the empty name for no match. `CertStores.LookupKeepsInvExactly` is an
  equivalence, `CertStores.EmptyNameStrands` an input.
- An enum member whose value is None has a state that does not read back: `Serializables.MemberComesBackExactly`.
- `check_packet` ends in an unbound local variable when no plaintext gets as far as the search for its ciphertext, and
  a ValueError loses the plaintexts that had been set aside: `Reporters.FinishesExactly` and `Reporters.RefusalLoses`.
  The ciphertext matched to a plaintext is back among the records after any later plaintext: `Reporters.KeepsLast`.

The declared delimiters make a formatted Cookie header read back differently (`mitmproxy/net/http/cookies.py:94`); only
Set-Cookie is claimed here.

## Model

| member | source | states |
|---|---|---|
| Layers.RefinesBlocking | mitmproxy/proxy/layer.py:131-240 | However replies are delayed and whatever arrives meanwhile, a layer yields and ends up exactly as a machine that blocks on each reply and finishes each event before the next |
| Layers.StartsInArrivalOrder | mitmproxy/proxy/layer.py:132-148 | Inputs start in arrival order, each once, those still buffered follow, an unpaused layer has buffered nothing, and every input is either accepted or the awaited reply |
| Layers.Layer.HandleEvent | mitmproxy/proxy/layer.py:131-184 | One call of the object with its paused generator and queue is one step of the specified engine |
| Layers.Layer.ProcessGenerator | mitmproxy/proxy/layer.py:186-222 | Running a generator to its end or to the first blocking command, with the pause recorded |
| Layers.Layer.ContinueWith | mitmproxy/proxy/layer.py:224-240 | Resuming with a reply and then replaying the queue until it is empty or the layer pauses again |
| LayerStacks.LayersRunAlone | mitmproxy/proxy/layer.py:165-177 | In a stack of any depth, whose layers may each turn a command of their child into any others, a blocking command pauses the layer that yielded it and no layer around it: every layer runs as it would alone, and no command leaves the stack still marked as blocking |
| LayerStacks.RunSplits | mitmproxy/proxy/layer.py:274-314 | Over a whole run the stack is its outermost layer's own run and the inner stack's run on the calls that layer makes |
| LayerStacks.RelaysInOrder | mitmproxy/proxy/layer.py:224-240 | Of the inputs that a layer relays in the end, whichever they are and however long its state holds them back, it loses, repeats and reorders nothing, across any pauses |
| LayerStacks.NeverResumedTwice | mitmproxy/proxy/layer.py:132-142 | No blocking command resumes its layer twice |
| LayerStacks.WaitsForItsReply | mitmproxy/proxy/layer.py:132-144 | A paused layer only buffers until its own reply arrives, and then resumes |
| LayerStacks.ReplyTravelsInwards | mitmproxy/proxy/layer.py:131-148 | On its way inwards a reply is neither lost nor repeated, and no layer around its owner takes it for its own |
| LayerStacks.ReplyResumesAskerOnce | mitmproxy/proxy/layer.py:165-177 | A reply given once resumes the layer that asked at most once, and exactly once when the layers around it are neither paused nor hold it back at the end, even if they had to buffer it first |
| NextLayers.ChildSeesWholeHistory | mitmproxy/proxy/layer.py:274-314 | Before the decision the child sees nothing; after it, it has been given exactly the accepted events, in order, once each, later ones included |
| NextLayers.HookShowsHandledData | mitmproxy/proxy/layer.py:291-296 | Every next_layer hook shows exactly the events handled up to that point of the run |
| NextLayers.AsksWhenItShould | mitmproxy/proxy/layer.py:274-314 | In every run all that is yielded is one hook for each event handled while undecided that is data of either side, or Start where it asks on Start, and one close of the client for each client close handled while undecided; after the decision nothing |
| NextLayers.HookSeesAllClientData | mitmproxy/proxy/layer.py:317-329 | At a pending hook, the client data shown followed by the buffered client data is all client data received |
| NextLayers.RebindingIsSound | mitmproxy/proxy/layer.py:306-314 | Once decided, handing an event straight to the child is what the engine would do |
| NextLayers.RelaysEverything | mitmproxy/proxy/layer.py:274-314 | Undecided or decided, the layer relays every input in order, and what it holds back is its record of events |
| NextLayers.ReplyPassesNextLayers | mitmproxy/proxy/layer.py:248-314 | Through any number of NextLayers, decided or not, a reply resumes the layer inside that asked for it, once |
| NextLayers.NextLayer.HandleEvent | mitmproxy/proxy/layer.py:268-289 | The rebound event handler agrees with the engine's step on every event |
| NextLayers.NextLayer.Data | mitmproxy/proxy/layer.py:323-329 | The data of one side, joined in order |
| NextLayers.DataOfLast | mitmproxy/proxy/layer.py:323-329 | Each further event adds its data exactly when it is data of that side |
| TunnelRuns.SilentExactly | mitmproxy/proxy/tunnel.py:55-63 | A tunnel started on an open connection gives its child nothing before a handshake ends, exactly when `start_handshake` does not give up |
| TunnelRuns.GivingUpShowsStart | mitmproxy/proxy/layers/tls.py:420-434 | The run in which a server-side TLS layer waits for the ClientHello shows the child Start although no handshake has ended |
| TunnelRuns.DeliversInOrder | mitmproxy/proxy/tunnel.py:55-154 | Apart from replies the child gets the events meant for it once each and in order, beginning with Start, and all of them once nothing is in progress, unless the subclass swallows them after a failed handshake |
| TunnelRuns.OneReplyExactly | mitmproxy/proxy/tunnel.py:100-144 | Only commands the child issued are answered, and none is answered twice, exactly when no handshake ended whose command had been answered |
| TunnelRuns.OneReplyPerOpen | mitmproxy/proxy/tunnel.py:100-144 | A child that asks for no connection while a request is unanswered gets at most one answer to each |
| TunnelRuns.AnswersAreTrue | mitmproxy/proxy/tunnel.py:100-144 | In every run the answers the child gets, and whether each says that the connection failed, are in order what happened: the failure of the tunnel's own connection, the end of the handshake as the subclass returned it, or a close in the middle of it; and once nothing is in progress all of them have been given, unless the subclass has swallowed some |
| TunnelRuns.AskingTwiceIsAnsweredTwice | mitmproxy/proxy/tunnel.py:126-140 | A run in which a child that asks again during the handshake for its first request gets two answers to the second |
| TunnelRuns.ArrivalsReachChild | mitmproxy/proxy/tunnel.py:55-98 | What is handed to the child's side is exactly what the arrivals mean in the state in which they are handled, and what handshakes hand over, in order; arrivals are handled in the order in which they come, each once, those buffered in a pause included |
| TunnelRuns.PausesOnItsOwn | mitmproxy/proxy/tunnel.py:105-144 | No command of the child pauses the tunnel; it pauses on the connection it opens for its child and where a subclass blocks |
| TunnelCommands.NextInOrder | mitmproxy/proxy/tunnel.py:115-154 | In every step the command that is carried out is the next one that waits, and what the child yields comes before all that waits |
| TunnelCommands.CommandsConserved | mitmproxy/proxy/tunnel.py:115-154 | Over every run the commands the child has yielded are, as a multiset, those carried out and those that still wait |
| TunnelCommands.CarriedAtRest | mitmproxy/proxy/tunnel.py:115-154 | At rest, exactly what the child has yielded has been carried out |
| TunnelCommands.OpensForEach | mitmproxy/proxy/tunnel.py:126-144 | One connection of the tunnel's own is opened for each OpenConnection carried out |
| TunnelDuties.DutiesInOrder | mitmproxy/proxy/tunnel.py:55-113 | In every step what is done of the tunnel's duties is what was due next; a close makes it fail a handshake under way, report that and close, a failed connection makes it close, an error of the handshake is reported before the handshake is finished as failed, and a command that was replied to is forgotten |
| TunnelDuties.DutiesConserved | mitmproxy/proxy/tunnel.py:55-113 | Over every run the duties incurred are, as a multiset, those done and those still due |
| TunnelDuties.FieldsTold | mitmproxy/proxy/tunnel.py:55-144 | In every run the tunnel's state, its command to reply to, and whether its child still hears anything, are what the last duty, command or step of the subclass that sets them has set |
| TunnelRuns.ForeignRepliesPass | mitmproxy/proxy/tunnel.py:97-98 | Replies to commands of other layers reach the child in order and once each, and all of them once the tunnel is at rest |
| TunnelRuns.RunOk | mitmproxy/proxy/tunnel.py:55-154 | The invariant behind these results holds in every run, for all children and for all subclasses that do in each place what the listed actions allow |
| TunnelRuns.TunnelLayer.HandleEvent | mitmproxy/proxy/tunnel.py:55-98 | The loop drains one call of the object as the specified run does, and leaves it with its invariant: the child shown nothing too early, out of order, or twice |
| ReplyPaths.ReplyReachesAsker | mitmproxy/proxy/tunnel.py:146-154 | Through any nesting of relaying layers, NextLayers and tunnels, a reply given once resumes the layer that asked at most once, and exactly once when all layers around it have come to rest |
| TcpRuns.RelaysWhatHooksLeave | mitmproxy/proxy/layers/tcp.py:113-118 | Message hooks are asked for each side's data in arrival order, and what is sent to the other side is exactly what the completed hooks made of it |
| TcpRuns.RelaysUnchanged | mitmproxy/proxy/layers/tcp.py:119-120 | Without a flow the bytes sent to each side are in order a prefix of those from the other |
| TcpRuns.OneVerdict | mitmproxy/proxy/layers/tcp.py:82-87 | A flow gets at most one of tcp_error and tcp_end |
| TcpRuns.EndsOnlyWhenUnreadable | mitmproxy/proxy/layers/tcp.py:122-135 | tcp_end is yielded only by a call in which neither side can be read; what else a close makes the layer yield is in TcpScripts.FollowsScript |
| TcpScripts.FollowsScript | mitmproxy/proxy/layers/tcp.py:75-143 | In every run, whatever the order of events, all commands are those of a script over the handled events and the answers, each with the connections as they were then: a close goes to the other side while one side is readable, otherwise whatever is not closed is closed, server first, and a failed connection closes the client and ends it all |
| TcpScripts.ScriptIsGiven | mitmproxy/proxy/layers/tcp.py:75-143 | The script is given the events the run handles, in that order, and the answers it takes |
| Tnetstrings.RDumpQ | mitmproxy/io/tnetstring.py:70-150 | Pushing the last chunk first puts the recursive netstring form in front of the deque, and the returned size grows by exactly the bytes pushed |
| Tnetstrings.Dumps | mitmproxy/io/tnetstring.py:50-59 | The joined deque is the netstring form |
| Tnetstrings.OnTheWire | mitmproxy/io/tnetstring.py:70-150 | Every form byte for byte, with the tag of each kind of value |
| Tnetstrings.OneFormEach | mitmproxy/io/tnetstring.py:187-226 | No other bytes are read as null, a boolean, a float, bytes or text than their one form, and integers, lists and dicts are read under their tags alone |
| Tnetstrings.PopForm | mitmproxy/io/tnetstring.py:243-258 | Popping a printed value followed by anything gives the value, with dict entries reversed, and what followed |
| Tnetstrings.ReorderedMeansTheSame | mitmproxy/io/tnetstring.py:142-144 | Reversing the entries of dicts changes no dict as a map |
| Tnetstrings.ReadsBack | mitmproxy/io/tnetstring.py:243-258 | What is popped means what was printed, with dicts as maps |
| Tnetstrings.ReadCanBeWritten | mitmproxy/io/tnetstring.py:243-258 | Whatever bytes it was read from, a value that was read can be printed, and reads back with the same meaning |
| Tnetstrings.PopAtLength | mitmproxy/io/tnetstring.py:229-258 | What pop does with any length prefix, negative ones included |
| Tnetstrings.TextExactly | mitmproxy/io/tnetstring.py:187-191 | Text is read exactly when its bytes encode Unicode scalar values, by section 3 of RFC 3629 |
| ByteStrings.IntegersExactly | mitmproxy/io/tnetstring.py:192-196 | An integer is read exactly from white space, a sign or none, digits with single underscores between them, and white space, as its decimal value |
| Tnetstrings.SplitAtColon | mitmproxy/io/tnetstring.py:229-240 | The loop finds the first colon, or fails as the specification does |
| Tnetstrings.ParseList | mitmproxy/io/tnetstring.py:213-218 | The list loop computes the recursive parse of the payload |
| Tnetstrings.ParseDict | mitmproxy/io/tnetstring.py:219-225 | The dict loop computes the recursive parse of the payload, later values replacing earlier ones |
| Tnetstrings.InsertReplaces | mitmproxy/io/tnetstring.py:219-225 | A key that is there keeps its place and spelling and gets the later value |
| Tnetstrings.BoolsAreNumbers | mitmproxy/io/tnetstring.py:219-225 | `True` and `1` are one key, and bytes and text never are |
| Tnetstrings.PopValue | mitmproxy/io/tnetstring.py:243-258 | Popping by the loops is the recursive pop |
| FlowFiles.CutFileStreams | mitmproxy/io/io.py:43-79 | A written file cut at any byte is never taken for HAR and yields exactly the whole records, then a clean end if the cut lies between records and an error otherwise |
| FlowFiles.WrittenFileStreams | mitmproxy/io/io.py:64-79 | The uncut file yields every state in order and a clean end |
| FlowFiles.StreamExactly | mitmproxy/io/io.py:43-79 | What any file yields: its records one behind the other up to the first place where no record stands, cleanly exactly if that is the end; and it is JSON exactly if it begins with a brace, or with a byte order mark and a brace |
| FlowFiles.LoadAgreesWithPop | mitmproxy/io/tnetstring.py:160-184 | Where the byte-at-a-time reader accepts, the in-memory parser gives the same value and the same rest |
| FlowFiles.LoadCutForm | mitmproxy/io/tnetstring.py:169-184 | A record cut after its first byte is an error, never a wrong record |
| FlowFiles.LoadExactly | mitmproxy/io/tnetstring.py:160-184 | Which bytes are a record and of what: one to twelve digits, leading zeros among them, a colon, as many bytes as they say, and a tag under which these parse |
| FlowFiles.LoadFrom | mitmproxy/io/tnetstring.py:160-184 | Loading from a file gives the specified result and leaves the position right behind the record |
| FlowFiles.ReadPrefix | mitmproxy/io/tnetstring.py:169-177 | The loop reads exactly the leading digits and the byte after them, and refuses more than twelve digits |
| FlowFiles.FlowWriter.Add | mitmproxy/io/io.py:22-24 | Adding appends the netstring form of the state to the file |
| FlowFiles.FlowReader.ReadAll | mitmproxy/io/io.py:43-79 | The reader tells HAR from flow files and yields the specified states and ending |
| FlowFiles.WriteThenRead | mitmproxy/io/io.py:18-79 | Writer and reader together: what was added comes back, then a clean end |
| Cookies.RoundTripExactly | mitmproxy/net/http/cookies.py:248-287 | For cookies with good keys, parsing the formatted header gives them back if and only if every expires and path value has the stated shape |
| Cookies.OrdinaryCookiesRoundTrip | mitmproxy/net/http/cookies.py:203-218 | Without expires and path, any values come back: quotes, backslashes, delimiters, none, empty |
| Cookies.ShortExpiresIsLost | mitmproxy/net/http/cookies.py:158-169 | A header with a short expires value without comma never comes back |
| Cookies.ExpiresExactly | mitmproxy/net/http/cookies.py:157-169 | An expires value is read back exactly when it is long and plain, or two plain parts around a comma with a short first part |
| Cookies.PlainExactly | mitmproxy/net/http/cookies.py:101-110 | Unquoted text is read back exactly when it has no delimiter and does not begin with a quote |
| Cookies.WrittenAsIs | mitmproxy/net/http/cookies.py:193-222 | Exactly the values of expires and path, and those made of cookie-octets (section 4.1.1 of RFC 6265) alone, are written as they are; every other value stands between quotes, escaped |
| Cookies.UnquoteEscaped | mitmproxy/net/http/cookies.py:67-91 | Reading the quoted form gives the value and leaves what follows the closing quote |
| Cookies.ReadUntilLoop | mitmproxy/net/http/cookies.py:55-64 | The loop splits at the first delimiter, and advances past an empty rest |
| Cookies.ReadQuotedString | mitmproxy/net/http/cookies.py:67-91 | The loop with its escaping flag computes the unquoted text and the offset behind it |
| Cookies.ReadValueAt | mitmproxy/net/http/cookies.py:101-110 | A value is read quoted, unquoted, or empty past the end |
| Cookies.ReadSetCookiePairs | mitmproxy/net/http/cookies.py:139-190 | The offset loop computes the scan of the whole header and ends |
| Cookies.ScanTurn | mitmproxy/net/http/cookies.py:149-185 | One turn reads a pair, ends a cookie at a comma, and strictly advances the offset |
| Cookies.ParseHeader | mitmproxy/net/http/cookies.py:248-263 | The cookies of a header, empty pair lists dropped |
| Cookies.FormatPairsLoop | mitmproxy/net/http/cookies.py:203-218 | The formatted pairs of a cookie, joined |
| Cookies.FormatHeader | mitmproxy/net/http/cookies.py:274-287 | The formatted header of a list of cookies |
| ClientHellos.GetClientHello | mitmproxy/proxy/layers/tls.py:58-70 | The loop over the record generator computes the specified outcome: incomplete, hello or error |
| ClientHellos.HandshakeRecords.Next | mitmproxy/proxy/layers/tls.py:33-55 | One turn of the generator yields the record at the offset and moves behind it, or stops, or fails |
| ClientHellos.VerdictSurvives | mitmproxy/proxy/layers/tls.py:58-70 | A hello and an error survive any extension of the input |
| ClientHellos.SplitDoesNotMatter | mitmproxy/proxy/layers/tls.py:33-70 | However a message is split into non-empty records, every strict prefix of the encoding is incomplete and the whole gives the message, whatever follows |
| ClientHellos.VerdictExactly | mitmproxy/proxy/layers/tls.py:33-70 | An input is an error exactly when good records that hold no whole message are followed by five bytes that are no header of a handshake record or announce an empty one; it waits exactly when what follows them is cut short; and it gives exactly the message that its records begin with |
| ClientHellos.FailsExactly | mitmproxy/proxy/layers/tls.py:505-519 | A call fails exactly when all bytes so far are such an error or hold a message whose body does not parse, and waits exactly when they are cut short |
| ClientHellos.HelloGoesOn | mitmproxy/proxy/layers/tls.py:505-563 | A call that completes a hello passes all bytes so far to the relaying child, to the TLS engine, or nowhere, as the hook and the connection decide; later calls pass on only their own bytes |
| ClientHellos.ClientTLSLayer.ReceiveHandshakeData | mitmproxy/proxy/layers/tls.py:505-563 | One call appends to the buffer, parses all of it, and passes the bytes on as the hook decides |
| ClientHellos.ArrivalDoesNotMatter | mitmproxy/proxy/layers/tls.py:505-519 | However bytes arrive in chunks, the calls wait, fail once, or see the hello once, as parsing all bytes at once would say; where the hook lets the connection go on, every byte then goes on in order, once |
| ClientHellos.HelloArrives | mitmproxy/proxy/layers/tls.py:505-563 | A well-formed hello in any records and any chunks, with anything behind it, is seen once and all bytes reach the TLS engine |
| Assemble.ChunkedRoundTrip | mitmproxy/net/http/http1/assemble.py:37-45 | Chunked output of any chunks and trailers decodes, by section 7.1 of RFC 9112, to their concatenation and the trailers; no strict prefix decodes |
| Assemble.AssembleExactly | mitmproxy/net/http/http1/assemble.py:37-52 | The chunked coding is used exactly when the Transfer-Encoding header holds `chunked` in any letter case; each non-empty chunk is one part, its size in lower-case hexadecimal; otherwise chunks pass as they are and trailers are an error |
| Framing.RequestSize | mitmproxy/net/http/http1/read.py:47-152 | An accepted request is chunked exactly when that is the final coding and otherwise has the declared length or 0; it is never read until close and never an error |
| Framing.ResponseSize | mitmproxy/net/http/http1/read.py:63-158 | An accepted response always has a size: none, chunked, declared, or until close, each exactly when section 6.3 of RFC 9112 says so |
| Framing.ChunkedIsFinal | mitmproxy/net/http/validate.py:50-63 | A coding that parses ends in chunked exactly when its last comma-separated part says so, in any letter case and spacing |
| Framing.CodingExactly | mitmproxy/net/http/validate.py:50-63 | The codings that parse are exactly the eight names, in any letter case, with blanks and tabs around the comma only |
| Framing.LengthExactly | mitmproxy/net/http/validate.py:39-47 | A length parses exactly as the decimal form of a number of at most 4300 digits, or that and a newline |
| Framing.NameExactly | mitmproxy/net/http/validate.py:76-78 | A header name is valid exactly when it is a token of section 5.6.2 of RFC 9110, or a token and a newline |
| Framing.AcceptedExactly | mitmproxy/net/http/validate.py:66-141 | The accepted messages are exactly those with valid names and at most one framing header, a readable length or a coding that fits the version, the status and the kind of message |
| Framing.SizeOfAny | mitmproxy/net/http/http1/read.py:47-158 | The body size of every message, accepted or not, by the list in section 6.3 of RFC 9112, errors included |
| Framing.ValidateHeaders | mitmproxy/net/http/validate.py:66-141 | The loop and the checks accept exactly the specified messages |
| Framing.DeclaredLengthIsRead | mitmproxy/http.py:375-380 | The length that set_content declares is the body size that the reader expects |
| Encodings.CacheIsInvisible | mitmproxy/net/encoding.py:35-136 | Over any sequence of calls on the shared cache, decode is the uncached decoder, and what encode returns decodes to its input |
| Encodings.EncodedDecodes | mitmproxy/net/encoding.py:93-125 | Encoding and then decoding gives the input back, whatever calls come in between |
| Encodings.ResultsByName | mitmproxy/net/encoding.py:35-136 | After any calls, by the name of the coding: the two identities give the data, the five compressions what their codec gives, an empty body decompresses to nothing, every other name is the codec's |
| Encodings.SecondCallIsCached | mitmproxy/net/encoding.py:50-66 | Decoding or encoding the same again, or encoding back what was decoded, calls no codec |
| Encodings.Encoding.DecodeData | mitmproxy/net/encoding.py:35-78 | One decode through the shared cache returns what the uncached decoder returns and keeps the cache sound |
| Encodings.Encoding.EncodeData | mitmproxy/net/encoding.py:93-136 | What one encode through the shared cache returns decodes to the input, and the cache stays sound |
| HttpMessages.ContentRoundTrip | mitmproxy/http.py:357-402 | Whenever set_content returns, get_content gives the same bytes, and without Transfer-Encoding the Content-Length is the raw length |
| HttpMessages.SetContentHeaders | mitmproxy/http.py:357-380 | What set_content makes of the body and of every header: Content-Length is set only without a Transfer-Encoding, Content-Encoding goes exactly when the codec refuses, and nothing else changes |
| HttpMessages.GetContentExactly | mitmproxy/http.py:382-402 | What get_content gives for every message, strict or not, and when it raises which error |
| HttpMessages.HttpMessage.SetContentOf | mitmproxy/http.py:357-380 | The body, the headers and the cache after set_content, and its TypeError |
| HttpMessages.HttpMessage.GetContentOf | mitmproxy/http.py:382-402 | The content or the exception of get_content |
| MultiDicts.SetAllValues | mitmproxy/coretypes/multidict.py:87-102 | After set_all the key has exactly the new values and every other key its old ones |
| MultiDicts.SetAllKeepsOthers | mitmproxy/coretypes/multidict.py:94-99 | Fields of other keys keep their relative order |
| MultiDicts.SetAllSpellings | mitmproxy/coretypes/multidict.py:94-101 | Existing spellings are reused first, the given one for what is left |
| MultiDicts.SetAllInPlace | mitmproxy/coretypes/multidict.py:94-101 | With enough values every field stays where it is and only values of the key change |
| MultiDicts.SetAllOfGetAll | mitmproxy/coretypes/multidict.py:79-102 | Putting back the values that are there changes nothing |
| MultiDicts.MultiDict.SetAll | mitmproxy/coretypes/multidict.py:87-102 | The two loops compute the new fields and empty the caller's list |
| MultiDicts.InsertValues | mitmproxy/coretypes/multidict.py:110-115 | An inserted value stands among its key's values where it was inserted; no other key changes |
| MultiDicts.DeleteValues | mitmproxy/coretypes/multidict.py:55-61 | After a deletion the key has no value and other keys their old ones |
| MultiDicts.MultiDict.DeleteItem | mitmproxy/coretypes/multidict.py:55-61 | Deletion fails exactly for an absent key; afterwards the key has no value and every other key the values it had, in their order |
| MultiDicts.IteratedForms | mitmproxy/coretypes/multidict.py:63-69 | Iteration yields every canonical form exactly once |
| MultiDicts.IteratedLast | mitmproxy/coretypes/multidict.py:63-69 | A further field is yielded, last and in its own spelling, exactly when its form has not been there before |
| MultiDicts.LengthIsIterated | mitmproxy/coretypes/multidict.py:71-72 | The length is the number of keys iteration yields |
| MultiDicts.MultiDict.Iterate | mitmproxy/coretypes/multidict.py:63-69 | The loop yields the first spelling of each canonical form |
| CertStores.ReachableOneToOne | mitmproxy/certs.py:463-467 | In every store reachable without the empty name, generated keys and queue correspond one to one, and the queue has at most 100 entries |
| CertStores.LookupKeepsInvExactly | mitmproxy/certs.py:682-700 | A lookup keeps that correspondence if and only if it strands no entry; with nothing under the empty name none does |
| CertStores.EmptyNameStrands | mitmproxy/certs.py:682-700 | Two lookups of an empty name leave two queued entries for one key |
| CertStores.HandAddedStay | mitmproxy/certs.py:463-467 | Certificates added by hand are never evicted: they are what the additions alone make them |
| CertStores.QueueIsLatest | mitmproxy/certs.py:463-467 | The queue is the latest 100 generated entries |
| CertStores.LivesFor100 | mitmproxy/certs.py:463-467 | A generated entry survives the next 99 generated ones and leaves with the 100th |
| CertStores.LookupByNames | mitmproxy/certs.py:650-704 | In every store a lookup returns the entry under the common name if there is one, else under the longest of its wildcards that is there, else the same for the first alternative name of which a form is there, else that under the star, else the one generated for these names before, else the new one |
| CertStores.LookupReturnsFirst | mitmproxy/certs.py:674-704 | In every store the entry of the first potential key present is returned exactly when that key is not the empty name or the new entry is the same; otherwise the new entry is returned and filed |
| CertStores.FormsExactly | mitmproxy/certs.py:640-655 | The forms of a name are the name itself and a star in place of what stands before each dot |
| CertStores.AsteriskFormsOfName | mitmproxy/certs.py:646-651 | The loop over the parts builds these forms |
| CertStores.CertStore.Get | mitmproxy/certs.py:657-704 | One lookup, with the new dict and queue |
| CertStores.CertStore.AddCert | mitmproxy/certs.py:628-638 | The entry is registered under its CN, its alternative names and the given names |
| CertStores.AddedUnder | mitmproxy/certs.py:628-638 | An addition files the entry under exactly the common name if not empty, the text of each alternative name and the given names, and changes nothing else |
| CertStores.CertStore.ExpireEntry | mitmproxy/certs.py:463-467 | When the new entry is the only one the queue lacks, generated keys and queue correspond one to one afterwards, at most 100 of them, and only the oldest entry has lost its keys |
| Serializables.RoundTrip | mitmproxy/coretypes/serializable.py:121-199 | Every well-typed value has a state that reads back as the value with sequences as lists, also after a store that turns tuples into lists, reverses dicts, or both |
| Serializables.ReadMeansTheSame | mitmproxy/coretypes/serializable.py:121-199 | What is read back is the original value up to lists for tuples and the order of dicts |
| Serializables.StateComesBack | mitmproxy/coretypes/serializable.py:81-96 | from_state of get_state gives the object back, in whatever order the store gives its fields |
| Serializables.SetStateRoundTrip | mitmproxy/coretypes/serializable.py:98-118 | Setting the state of one object on another of its class, nested objects included and the fields in either order, makes them equal and leaves nothing over |
| Serializables.MemberComesBackExactly | mitmproxy/coretypes/serializable.py:141-187 | An enum member reads back exactly when its value is not None |
| StateReadings.AcceptsExactly | mitmproxy/coretypes/serializable.py:88-96 | from_state accepts a dict and makes exactly this object of it if and only if every field is there under its name and convertible to its value, and no other key is |
| StateReadings.ReadIsTyped | mitmproxy/coretypes/serializable.py:88-96 | From any state, what from_state makes is an object whose fields have the declared types, at any depth, and its own state reads back |
| StateReadings.NothingLeftOver | mitmproxy/coretypes/serializable.py:98-118 | A state that set_state accepts has exactly one entry for each field and no other |
| StateReadings.ScalarsKept | mitmproxy/coretypes/serializable.py:171-185 | Text, bytes and booleans are taken as they are and only where declared; numbers and booleans are taken for numbers, with their value |
| StateReadings.CutsTowardZero | mitmproxy/coretypes/serializable.py:171-176 | A float given where an int is declared is cut toward zero |
| Serializables.SerializableDataclass.GetStateDict | mitmproxy/coretypes/serializable.py:81-86 | The loop fills the dict that the specification describes, or fails when it does |
| Serializables.SerializableDataclass.SetState | mitmproxy/coretypes/serializable.py:98-118 | The loop pops every field's state and leaves the specified fields and an empty dict |
| FlowStates.FileStores | mitmproxy/io/tnetstring.py:70-150 | Printing a state and parsing it does to the state exactly what a store does that makes lists of tuples and reverses dicts |
| FlowStates.StateKeyed | mitmproxy/coretypes/serializable.py:121-199 | In the state of every well-typed value the keys of every dict are different and no containers |
| FlowStates.RecordReads | mitmproxy/io/io.py:66-73 | An object's printed state, followed by anything, is popped and read as an object that means the same, and what followed is left |
| FlowStates.CutFileReads | mitmproxy/io/io.py:43-79 | A file of objects cut at any byte gives back exactly the objects written in full before the cut, never another, and ends cleanly only between records |
| FlowStates.WrittenFileReads | mitmproxy/io/io.py:18-79 | The uncut file gives back every object in order |
| Reporters.PlaintextsConserved | midman/reporter.py:161-260 | When the loop finishes, plaintexts held before are exactly those reported plus those kept, each in order |
| Reporters.FinishesExactly | midman/reporter.py:161-261 | The loop finishes exactly when no plaintext is before the first ciphertext, and completes exactly when one is looked for among the ciphertext |
| Reporters.RefusalLoses | midman/reporter.py:168-171 | On a ValueError what is left is what was not examined; the refused and the kept plaintexts are gone |
| Reporters.ReportedAreAround | midman/reporter.py:172-257 | Every reported packet has recorded ciphertext strictly before and after its plaintext, with a positive delay of at most the gap |
| Reporters.ReportedExactly | midman/reporter.py:168-259 | Which plaintexts are reported, between the last of the leading ciphertext timestamps before and the first one after, and all of the packet: the delay, the ciphertext found, and which records remain |
| Reporters.KeepsLast | midman/reporter.py:189-261 | The records kept in the end are those that the last plaintext looked for has left, so that what earlier ones took is back |
| Reporters.DelayMonotone | midman/reporter.py:252 | A longer gap has a longer delay |
| Reporters.Session.CheckPacket | midman/reporter.py:148-261 | The reports, the connection's fields and the outcome after a check |
| Reporters.Session.ExaminePlain | midman/reporter.py:166-259 | The body of the loop for one plaintext |

## Left out

- Sockets, tasks, timers, pipes, subprocesses and the database: input and output. Of `mitmproxy/proxy/server.py` only the rule that one event is drained before the next is used, as an assumption.
- Debug output of layers, and Log commands: they never block.
- Layers.RefinesBlocking: for handlers that read nothing besides their own state that changes while events wait; connection states do change, which is why the TCP relay is stated as a prefix.
- LayerStacks.LayersRunAlone: what a layer makes of a command of its child does not depend on the layer's state and does not pause it. The tunnel's OpenConnection does both; for it `TunnelRuns.PausesOnItsOwn` and `ReplyPaths.ReplyReachesAsker` say what holds.
- LayerStacks.RunSplits: as for LayersRunAlone.
- LayerStacks.ReplyResumesAskerOnce: for outer layers that pass a reply on in the end. The tunnels among them, whose child's commands matter, are in `ReplyPaths.ReplyReachesAsker`.
- Tunnels: the child is any source of commands per event; that a child's generator still has work left when its OpenConnection is answered is not modelled, nor are the states and timestamps of `conn` where it differs from `tunnel_connection`, nor that a TLS layer replaces its connections to let a connection through. `receive_data`, `send_data` and `receive_close` are those of the base class, a class that keeps the base class's `start_handshake` keeps its `receive_handshake_data`, and Start comes only first.
- TunnelCommands.CommandsConserved: what `send_data` and `send_close` yield is left to the subclass; in the base class it is the same command for the outer connection.
- TunnelRuns.OneReplyPerOpen: for children that wait for their answers; `TunnelRuns.OneReplyExactly` is for all.
- TcpLayers: a message joins the flow when its hook has completed; the original appends it before. No command shows the flow in between.
- TcpRuns: an event that the `expect` decorator forbids raises AssertionError; the model reports it and goes on, and the theorems are about runs without one.
- Tnetstrings: the limit of 4300 digits on integers; recursion depth. A `str` is held as its UTF-8 bytes and a float as its text, which must have a form that `repr` gives; floats as keys are the same when their texts are.
- FlowFiles: `migrate_flow` between the loaded state and the flow, and the content of HAR files.
- FlowStates: that the keys of a dict are different includes that `1` and `True` do not occur together. A record is the state of one object with declared field types; how `Flow` puts its parts, type and version together is not modelled. `encode`, `decode`, `repr` and `float` are parameters that must invert each other on the strings and floats in the object.
- Cookies: Cookie headers, and `refresh_set_cookie_header` and the other helpers below it.
- ClientHellos: what the body of a hello says (generated parser, here an opaque function), and the commands between the hook and the TLS engine; whether the connection is still up afterwards is a parameter.
- Assemble: request and status lines.
- Framing: header names and values are strings of bytes, lower-cased by ASCII.
- Encodings: the compressors and text codecs themselves; a KeyError raised inside a compressor, which the original takes for an unknown coding.
- HttpMessages: a value that is neither bytes nor None, and `set_text` and `get_text`.
- CertStores: making certificates and reading them from files; a certificate is a value that can be compared, and generated ones are new because their serial numbers are random. Legacy SANs given as strings are already converted.
- Serializables: a str, bytes or dict given where a list is declared is iterated by the original and refused by the model; frozen dataclasses and fields excluded from serialization; kinds of exceptions; `1`, `1.0` and `True` as the same dict key; dict keys that are tuples; NaN and the infinities, floats being reals. Objects are values, so that `set_state` keeps the identity of nested objects is not captured.
- Reporters: the equality of connections by addresses and aliases (they are compared by identity), the TLS parser that decides what is application data, rounding, and conservation of cipher records, which the code does not give.
