# A verified model of reverseproxy

The program accepts TCP connections, reads just enough of each to find the host it is for (the
HTTP `Host` line or the TLS server_name), picks a registered service, and hands the connection
on with the bytes already read: to another address, or over a Unix socket to a child process.
This project models that code in Dafny and proves what it is meant to guarantee.

## Modules

| file | models |
|---|---|
| `Bytes`, `Streams`, `Pools` | byte strings and `bytes.Index`; connections delivered in pieces of any size, whose reads and writes may fail; buffer pools |
| `Buffers` | any number of holders of pooled buffers, step by step, in any interleaving |
| `Http` | the Host line scanner, against a decision on the whole stream |
| `Tls` | the ClientHello reader, its grammar, and a writer of hellos |
| `Dispatch` | matchers, match lists, and the host part of a name |
| `Registry`, `Commands` | the shared registry of bound ports; the proxy's side of its children |
| `Toggle` | the open/close protocol between a child and the proxy, as a transition system |
| `Child` | the child's reading loop and the connection that replays its first bytes |
| `Forward`, `EndToEnd` | one connection from accept to service, and what the service reads |
| `Forwarded` | the Forwarded header inserted by `cmd/httpsproxy` |
| `Config`, `Reaping` | the configuration as a state machine; where status and command of a record part |
| `Effects` | what each operation of the configuration leaves in its maps of servers and records |
| `Management` | the configuration's start-up and handlers, on the registry that children share |
| `Locks` | every path of the proxy that takes locks, what it touches under them, and any number of threads on them |
| `Copying`, `HashCodec` | the copier counter; the hexadecimal password hash |

Code that changes state is a class or a loop here, proved against functions on values; what the
code promises is proved of those functions. `Toggle`, `Buffers`, `Locks`, `Copying`, `Config` and
`Reaping` are transition systems: their theorems are about every run, with any number of callers,
holders, threads or operations, in any order.

## Main results

- **Toggle.** A request is a bare port number that opens or closes by the receiver's state, and
  replies carry no id. In every run in which no two callers close one listener at once, each request
  is handled as its sender meant it (`NeverConfused`); once a session has settled, that is so if and
  only if no two did (`ConfusedExactly`). Until then each reply reaches the one Listen that waits for
  that port (`RepliesMatch`), and while a Listen waits exactly one request or answer of it is on its way
  (`ListenAttended`). A connection handed over is queued on its port's own channel with its bytes
  if and only if it was sent after the port was acknowledged (`HandoverQueuedExactly`), and every
  connection picked is accounted for once, with its own port and bytes (`ConnectionsAccounted`). A session
  that has ended opens and acknowledges nothing (`EndIsFinal`).
- **Bytes.** A stream and the registry settle what becomes of a connection, unless a read fails that
  begins before the stream has decided (`ServedExactly`): if its first bytes ask for a name, it goes to
  a service exactly when some open Port of its listener matches, whatever follows them
  (`ServedInTime`). Whatever the reads, the child then holds exactly the client's stream and gets all
  of it if it reads on (`ToChild`, `ServedByChild`), and an address is written a prefix of it, up to a
  failure (`ToAddress`).
- **Buffers.** In every interleaving each pooled buffer has one owner, those in the pool are zero, and
  a holder finds in its buffer what it put there itself, as if it were alone (`OneOwner`, `AsIfAlone`);
  every buffer ever made is in the pool, with a holder, or was dropped (`EachAccounted`).
- **Parsers.** Which streams ask for a name, and which for none, is said in bytes, without reference to
  the readers (`AskedExactly`, `RefusedExactly`). The scanner's answer is a function of the whole stream, with a declarative
  meaning (`FoundMeaning`), and is given by the read that completes it, which is no later than the one
  that completes the first blank line; the scanner stalls exactly when a full
  buffer decides nothing (`AnswerSettled`). The ClientHello reader agrees with a recursive grammar on
  every record, reads back every hello that is written, answers with a name or with none exactly the
  records that `BodyNamed` says, and leaves its window exactly when `BodyRange` says.
- **Registry.** The numbers bound are exactly those of the open Ports, but for those whose accept loop
  failed; closing a command closes all its Ports and nobody else's.
- **Locks.** Every path takes locks in one order, so no reachable state is a deadlock before a bind has
  failed; after one, whoever asks for lMu waits for ever (`FailedBindWedges`). Every path touches what is
  shared under its lock, but for three (`PathMinds`); where none of those is careless of a datum, no run
  races on it (`NoRace`), and each of them races in some run (`CarelessRaces`).
- **Configuration.** The registry's open Ports of redirects are exactly those that records of the
  configuration hold (`PortsExactlyHeld`), and only its own stop closes one. A redirect matches what
  its list accepts exactly if that list accepts what the one it was made with does. Status 1 and a
  running command go together exactly as long as no reaper comes late (`InStepExactly`). What the
  handlers make of the configuration is a run of `Config`, so that all of this holds of it. What each of
  them leaves, and when it is refused, is said of the maps themselves in `Effects`.

## Premises

- Each message on the socket pair arrives as one message, in order; an error text is not empty
  (`ControlRoundTrip` shows what an empty one would be read as).
- A read into a non-empty buffer yields a byte or fails. It may do both. At the end of the data it
  fails. A write takes all its bytes or fails.
- addPort is one step. In the code lMu is released before the Port is put into its listener's set.
- Of the registry's users, `Commands` and `Management` suppose that no accept loop fails (`AcceptFails`
  says what one that does leaves), and that nothing is asked of the registry once a failed bind has
  left lMu locked (`stuck`).
- Reading and writing under a lock returns.
- A server does not give out 2^64 ids (`IdsLeft`).
- One connection of a child is not read and closed by two goroutines at the same time.
- Reading, checking and zeroing one field of a listener are single steps; the two bytes of its number
  are two reads.

## Where the code does less than one would expect

- A listener closed by two callers at once may send its port twice, or another number. Exactly the first
  of its closes to be handled closes its port, if it carries that (`MeantExactly`); a second opens the
  port again (`SecondCloseReopens`), and one whose two bytes were read before and after the zeroing may
  close another listener's port (`TornCloseHitsAnother`).
- A port can be listened on once in a session. The proxy does not answer a close, so the child
  keeps the port in its tables and Listen refuses it for ever after (`ListenOnce`); the branch at
  unixconn/unixconn.go:73-76 is never taken (`AckAlwaysNew`).
- A connection accepted between addPort and the acknowledgement is dropped if it is also handed over
  by then (`HandoverQueuedExactly`, `EarlyHandoverDropped`).
- A full HTTP buffer with nothing decided is read into for ever (`Hung`), and a TLS record can make the
  reader slice out of range, which ends the process (`OutOfRange`). Both are outcomes of the model, with
  exact conditions (`AnswerSettled`, `OutOfBoundsMeaning`).
- A connection whose name matches nothing is neither handed on nor closed (`Unmatched`).
- An accept loop that fails marks its Ports closed under its own lock and not under lMu, Port.Closed
  reads that mark under no lock, and start-up and exit work on the configuration without config.mu while
  reapers and handlers may be at it (`Careless`, `CarelessRaces`).
- Where an accept loop fails, the number stays in the registry with nothing bound: a Port added to it is
  open and nothing listens for it.
- Modifying a redirect leaves its matcher as it was: it has an effect on what is matched exactly if the
  new list accepts the same names as the one the redirect was made with, and so none
  (`ModifyTakesEffect`).
- The reaper of an earlier command takes the handle of a later one (`StaleReaperRun`). The record is
  then out of reach: nothing starts, stops, changes or removes it until the process is started again
  (`WedgedForEver`). Asking for its ports calls Status on a nil command (`NilExactly`); what becomes of
  the process then is up to the RPC library, which is not part of this model.
- A command added while the program runs does not know its server. When its process ends by itself, its
  reaper asks for the server's name and ends the program; exactly then (`DownExactly`, `AddedEndsRun`).
- cmd/httpsproxy does not look at the errors of the writes that insert the header, and copies on: the
  backend may miss a part of it (`Forwarded.ProxyConn`).

## Model

| member | source | states |
|---|---|---|
| Bytes.IndexIsFirst | http.go:24-28 | the index found is the first match, and nothing else is |
| Bytes.IndexStable | http.go:21-28 | a first match stays where it is as the buffer grows; a new one ends in the new bytes |
| Streams.Stream.Read | http.go:22-23 | a read takes the next bytes of the stream, in a piece of any size, and changes nothing else; where it began, and whether it failed, is on record |
| Streams.ReadPart | tls.go:17-20 | one read behind what there is in the window |
| Streams.ReadFull | tls.go:17-20 | the window is filled with the next bytes, or as much of it as there are before a read that fails; the last read begins while it is not full |
| Streams.Sink.Write | redirect.go:16-17 | a write takes all bytes, or fails and has taken the first of them; failures are counted |
| Http.NoOverlap | http.go:10-14 | a blank line cannot run into a Host line or begin inside one |
| Http.ScanStable | http.go:21-38 | bytes that come later never change the decision |
| Http.BlankLineDecides | http.go:24-31 | the first complete blank line always decides |
| Http.FoundMeaning | http.go:24-38 | the scanner finds exactly the span from the first Host line, not at the start and before any blank line, to its line end |
| Http.NoHeaderMeaning | http.go:26-31 | it refuses exactly when a blank line came and no such span stands before it |
| Http.ReadServerName | http.go:16-39 | for every split into reads: the name and refusal are those of the whole stream, given by the read that completes them: what was there when the last read began decides nothing and has no blank line; it gives up only because that read failed, and stalls only when full and undecided; the buffer holds a prefix of the stream and is untouched beyond it |
| Http.AnswerSettled | http.go:21-36 | unless a read failed, the answer is settled by the stream and the size of the buffer; the loop stalls exactly when a full buffer decides nothing |
| Tls.EachNext | tls.go:86-111 | one turn of the extension loop on its way out of the window |
| Tls.LeavesBreaksOff | tls.go:86-111 | a block that takes the loop out of its window is a row of other extensions and six bytes that break off |
| Tls.BreaksOffLeaves | tls.go:86-111 | every such block does |
| Tls.ReachesBlock | tls.go:53-84 | the extension block is reached exactly when every length before it fits; otherwise the answer is an invalid length |
| Tls.BodyRange | tls.go:41-111 | exactly which record bodies make the reader slice out of range |
| Tls.ServerNameWritten | tls.go:94-107 | a written server_name extension is read back as its first entry |
| Tls.ExtsWritten | tls.go:86-113 | of any row of written extensions, the first server_name is found, or none |
| Tls.NamedExactly | tls.go:86-107 | an extension block is answered with a name if and only if it is a row of other extensions and then a server_name extension that is there in full, with the list length that its own calls for and that name first, or cut short behind the name's type, and then the name is empty |
| Tls.NamelessExactly | tls.go:86-113 | and with no name if and only if it is a row of other extensions, with at most three bytes behind it that do not start one |
| Tls.HeadMeaning | tls.go:41-54 | what is refused before the fields: the message type, and a 24-bit length that is not that of the record |
| Tls.FieldsMeaning | tls.go:53-84 | the extension block is reached, and is this one, if and only if session id, suites, compressions and the block are written out there, each with its length |
| Tls.BodyNamed | tls.go:41-113 | exactly which record bodies are answered with a name, which with none, and which are no ClientHello |
| Tls.WrittenThenParsed | tls.go:41-113 | every well-formed ClientHello is answered with exactly the name it asks for, or with no name |
| Tls.RecordAnswered | tls.go:14-113 | the same for a stream that begins with its record, whose length is exactly what is taken |
| Tls.Cursor.ReadUint8 | tls.go:22-41 | one byte from the front of the window, or 0 and an empty window |
| Tls.Cursor.ReadUint16 | tls.go:22-27 | two bytes, big-endian, or 0 and an empty window |
| Tls.Cursor.ReadUint24 | tls.go:45-45 | three bytes, big-endian, or 0 and an empty window |
| Tls.Cursor.ParseHello | tls.go:41-54 | agrees with the grammar on every record body |
| Tls.Cursor.SkipFields | tls.go:56-62 | agrees with the grammar from the session id on |
| Tls.Cursor.SkipSuites | tls.go:64-77 | agrees with the grammar from the cipher suites on |
| Tls.Cursor.SearchExtensions | tls.go:79-84 | agrees with the grammar on the extension block |
| Tls.Cursor.FindServerName | tls.go:86-113 | the loop ends, and agrees with the recursive search |
| Tls.Cursor.ServerNameIn | tls.go:94-107 | agrees with the grammar on the server_name extension, of which Tls.NamedExactly says when it names whom |
| Tls.ReadLength | tls.go:15-29 | the length of the record, unless a read failed short of it; no read begins past it |
| Tls.ReadServerName | tls.go:14-114 | for every split into reads: one whole record is read and answered by the grammar, and no read begins past it, unless a read failed short of it or the buffer is too short; the buffer holds a prefix of the stream and is untouched beyond it |
| Dispatch.BuildMatchService | cmd/reverseproxy/servers.go:274-288 | the loop builds the matcher of the list |
| Dispatch.MatchAnyMeaning | service.go:30-38 | a list accepts what one of its members accepts |
| Dispatch.MatchListMeaning | cmd/reverseproxy/servers.go:266-292 | the matcher made of a match list accepts exactly the names that are the text of one of its lines, or that end in it where the line is a suffix |
| Dispatch.SuffixMeaning | service.go:22-24 | a suffix matches exactly the names that are something followed by it |
| Dispatch.PortDoesNotMatter | proxy.go:92-94 | a plain host is the same with and without a port |
| Dispatch.SplitHostMeaning | proxy.go:92-94 | exactly which names are taken for host and port, and what host is taken out of them |
| Dispatch.BracketsComeOff | proxy.go:92-94 | a host in brackets with a port is looked up as the host |
| Registry.Listeners.BoundExactly | proxy.go:140-203 | the numbers bound are those of the open Ports, but for numbers whose accept loop failed; each open Port is in exactly one set, that of the listener that serves its number |
| Registry.Listeners.AddPort | proxy.go:140-176 | when it fails and what it leaves; a new open Port, bound unless the number is dead; the registry stays in order |
| Registry.Listeners.Bind | proxy.go:147-162 | a listener for a number that had none |
| Registry.Listeners.Insert | proxy.go:166-173 | the Port joins its listener's set |
| Registry.Listeners.Close | proxy.go:179-203 | this Port and no other is closed; the entry goes with its last Port, also where its accept loop failed; a second close changes nothing |
| Registry.Listeners.Remove | proxy.go:183-197 | the Port leaves its set, and it was the last exactly if no open Port has its number |
| Registry.Listeners.Unbind | proxy.go:189-192 | the last Port gone, the entry goes and the number is unbound |
| Registry.Listeners.Pick | proxy.go:96-108 | in whatever order the map is walked, and even if the listener was closed meanwhile: a Port chosen is open, of this listener, and matches; none is chosen only if none does |
| Registry.Listeners.AcceptFails | proxy.go:49-61 | exactly the Ports of this number are closed and its set is empty; the socket is gone but the entry stays, and the registry is in order but for that number |
| Registry.Listeners.Lose | proxy.go:49-49 | the socket of a number goes and its entry stays |
| Registry.Listeners.CloseOne | proxy.go:53-57 | one Port of a failed listener is closed and leaves its set |
| Commands.UnixCmd.Message | unix.go:168-198 | opens, closes, refuses or ignores as the protocol says, and answers accordingly; its entries are exactly its open Ports; others' Ports are untouched |
| Commands.UnixCmd.Drop | unix.go:177-179 | one entry and its Port go |
| Commands.UnixCmd.Open | unix.go:181-194 | a Port, an entry and an acknowledgement, or an error text |
| Commands.UnixCmd.CloseAll | unix.go:58-61 | every one of its Ports is closed and nobody else's |
| Commands.UnixCmd.Close | unix.go:50-72 | every Port of the command is closed and nobody else's, once; then ErrClosed; an error of closing the socket goes before one of the signal |
| Commands.UnixCmd.EndOfStream | unix.go:143-157 | the same when the child is gone; closed for good |
| Commands.UnixCmd.Exit | unix.go:159-165 | exited only after closed |
| Commands.Proxy.Message | unix.go:168-198 | with any number of commands and redirects on the registry: the command changes as the protocol says, nobody else gains or loses a Port, and every one of them stays in order |
| Commands.Proxy.CloseCommand | unix.go:50-72 | of all open Ports exactly this command's are closed; everyone stays in order |
| Commands.Proxy.ChildGone | unix.go:143-166 | likewise when the child is gone |
| Commands.Proxy.Redirect | redirect.go:38-44 | when it fails; otherwise one more Port, of a redirect; everyone stays in order |
| Commands.Proxy.CloseRedirect | proxy.go:179-203 | exactly this Port is closed; everyone stays in order |
| Toggle.PortRoundTrip | unixconn/unixconn.go:258-258 | the two bytes of a port read back as the port |
| Toggle.ControlRoundTrip | unix.go:182-193 | the child reads back what the proxy wrote, if an error text is not empty, and only then |
| Toggle.StepKeeps | unixconn/unixconn.go:53-289 | every step of every party keeps the protocol's invariant, as long as requests are handled as meant |
| Toggle.NeverConfused | unix.go:172-196 | in every run in which no listener's check was passed by two callers of Close, a request sent by Listen is handled as an open and one sent by Close as a close |
| Toggle.MeantExactly | unixconn/unixconn.go:212-228 | where callers of Close race: exactly which requests are handled as meant, those of Listen and the first close of a listener to be handled, if it carries the listener's port |
| Toggle.ConfusedExactly | unixconn/unixconn.go:212-228 | in every run that has settled, all requests were handled as meant, each close closing the port of its own listener, if and only if no two callers of Close passed one listener's check |
| Toggle.AckAlwaysNew | unixconn/unixconn.go:71-82 | in every run, until a request is mistaken, an acknowledgement is for a port not yet in the tables |
| Toggle.RepliesMatch | unixconn/unixconn.go:260-289 | in every run, until a request is mistaken: at most one request is on its way round, only while a Listen waits, for its port; each listener has its own port and the channel stored for it |
| Toggle.ListenAttended | unix.go:181-194 | in every run, until a request is mistaken or the session or the child's loop has ended: while a Listen waits, exactly one of its request and the answer to it is on its way, also where the bind fails |
| Toggle.EndIsFinal | unix.go:50-72 | once the command was closed or the child is gone, nothing is open or acknowledged in any continuation |
| Toggle.PortsInStep | unixconn/unixconn.go:71-82 | in every run, until a request is mistaken: the two tables have the same ports, what the proxy has open is in them or just being acknowledged, and an open listener's port is open |
| Toggle.HandoverQueuedExactly | unixconn/unixconn.go:86-119 | in every run, until a request is mistaken: a connection handed over is queued on its port's channel with its bytes if and only if it was sent after the acknowledgement, and is dropped otherwise |
| Toggle.ConnectionsAccounted | unix.go:19-26 | in every run of an open session the connections picked by transfers are those still with a transfer, on their way, delivered or dropped, each once and with its own port and bytes; after its end none is there twice or new |
| Toggle.EarlyHandoverDropped | unix.go:181-193 | for every port a run in which a connection sent before the acknowledgement is dropped |
| Toggle.ListenOnce | unixconn/unixconn.go:262-266 | in every run, until a request is mistaken: a port listened on once is refused from then on, and keeps its channel |
| Toggle.SecondCloseReopens | unixconn/unixconn.go:212-228 | for every port a run in which two callers close its listener and the second opens the port again |
| Toggle.TornCloseHitsAnother | unixconn/unixconn.go:219-221 | for every port above 255 that is no multiple of 256 a run in which two callers close its listener and the message of one closes the port of another |
| Pools.Pool.Get | unixconn/unixconn.go:30-34 | a zeroed buffer that nobody else has |
| Pools.Pool.Put | unixconn/unixconn.go:182-182 | only zeroed buffers come back |
| Pools.Clear | proxy.go:117-119 | zeroing what was written zeroes the buffer |
| Buffers.StepKeeps | proxy.go:86-121 | every step of every holder keeps the owners apart and the pool zero |
| Buffers.OneOwner | unixconn/unixconn.go:107-134 | in every interleaving of transfers, reading loop and connections each buffer has at most one owner, and the pool's are zero |
| Buffers.AsIfAlone | proxy.go:86-115 | in every interleaving a holder's buffer has exactly what it put there itself and zeros beyond; no other's step changes it |
| Buffers.EachAccounted | unixconn/unixconn.go:58-135 | in every interleaving the buffers made are those in the pool, those with a holder, and those dropped |
| Child.Conn.Replay | unixconn/unixconn.go:163-172 | the received bytes come first and in order; once they are out the buffer goes back zeroed |
| Child.Conn.Read | unixconn/unixconn.go:162-175 | what is read and what is left make up what there was; the bytes held are served without a failure |
| Child.Conn.ClearBuffer | unixconn/unixconn.go:177-185 | the buffer goes back to the pool zeroed, once |
| Child.Conn.Close | unixconn/unixconn.go:187-195 | likewise, if there still is one |
| Child.ReadAll | unixconn/unixconn.go:162-175 | for every sequence of read sizes the bytes come out in order, none lost or added, and one at least for every read, until one fails |
| Child.Receiver.Control | unixconn/unixconn.go:70-85 | the tables change as the protocol says, and the right value is passed on |
| Child.Receiver.Adopt | unixconn/unixconn.go:107-113 | the buffer changes owner and the loop takes another |
| Child.Receiver.Message | unixconn/unixconn.go:58-135 | a connection for a known port is queued on its channel holding the bytes sent beside it and then its own stream; any other leaves the buffer zeroed; every buffer keeps one owner |
| Child.Receiver.ConnRead | unixconn/unixconn.go:162-175 | one connection's reads yield bytes or fail, and leave all others as they were, and every buffer one owner |
| Child.Receiver.ConnClose | unixconn/unixconn.go:187-195 | likewise its close |
| Forward.ReadName | proxy.go:78-90 | the name is the one the whole stream asks for, by the reader its first byte calls for; no read begins once the stream has decided, and it fails only because the last one did or the stream is refused |
| Forward.HostRequested | http.go:24-38 | a request whose Host line comes first asks for what stands on it exactly if the line fits the buffer, and overflows it otherwise |
| Forward.HelloRequested | tls.go:14-114 | a stream that begins with a hello asks for its first server name |
| Forward.AskedExactly | proxy.go:68-90 | exactly which streams ask for a name, in bytes: a record of type 22 whose hello has it first in its server_name, or a header with it on its Host line within the first 2^20 bytes |
| Forward.RefusedExactly | http.go:24-31 | exactly which HTTP streams are refused: a blank line within the first 2^20 bytes, and no name before it |
| Forward.PatternsMeaning | http.go:10-14 | the scanner's patterns in characters |
| Forward.OutOfBoundsMeaning | tls.go:41-111 | exactly which streams take the TLS reader out of range |
| Forward.DemandStable | http.go:21-38 | what a prefix of the stream decides, nothing sent later changes |
| Forward.SelectsAlike | proxy.go:92-106 | a plain host selects alike in a Host line, with or without port, and in server_name |
| Forward.ServedExactly | proxy.go:68-112 | unless a read fails that begins before the stream has decided: a service is chosen if and only if a name is asked for that some open Port of the listener accepts, one that alone does is the one, and the connection is closed if and only if it is refused |
| Forward.ServedInTime | proxy.go:68-112 | if the first k bytes ask for a name and no read fails that begins before they have come, a service is chosen if and only if some open Port accepts it, whatever follows and whatever fails later |
| Forward.Proxy.Serve | proxy.go:86-121 | what becomes of the connection is what its stream and the registry say, or the last read failed before the stream had decided; prefix and rest make up the stream; the buffer goes back zeroed |
| Forward.Proxy.Decide | proxy.go:90-115 | the choice for what the name reader left, and that what is wiped is what was returned |
| Forward.Proxy.Transfer | proxy.go:68-125 | what becomes of the connection is what its stream and the registry say, or the last read failed before the stream had decided; it reads no further than the read that decides; the service gets exactly the bytes read, which fit the child's buffer; the pools hold only zeroed buffers; only a slice out of range ends the process |
| EndToEnd.ToChild | unix.go:19-30 | whenever a service is chosen, the message sent and the port known, the child gets a connection that holds exactly the client's whole stream; one is chosen whenever the stream asks for a name that is served, unless a read fails before it has decided |
| EndToEnd.ServedByChild | unixconn/unixconn.go:162-175 | the same, and whatever the child's reads, it gets the client's bytes in order, none lost or added, and all of them if it reads often enough and none of its reads fails |
| EndToEnd.CopyConn | redirect.go:30-36 | what is written is what was read, in order, until a read or a write has failed |
| EndToEnd.ToAddress | redirect.go:14-24 | whenever a service is chosen, as above, and dialled, the backend sees a prefix of the client's stream, and all that was read up to a failed read unless a write failed |
| Forwarded.InsertThenRemove | cmd/httpsproxy/main.go:72-85 | the header stands at the first line end, and taking it out gives the stream back |
| Forwarded.HeaderText | cmd/httpsproxy/main.go:30-31 | what is inserted, in characters |
| Forwarded.LeftJoins | cmd/httpsproxy/main.go:73-85 | what is left of two parts is what is left of the whole: writes that fail lose bytes and disorder none |
| Forwarded.Assembled | cmd/httpsproxy/main.go:72-85 | the pieces written and the rest of the stream are the stream with the header in it |
| Forwarded.ReadLine | cmd/httpsproxy/main.go:68-83 | reads until the first line end of the stream and no further than the read that completes it; it gives up only because the last read failed without one, and hangs only when the buffer is full |
| Forwarded.WriteParts | cmd/httpsproxy/main.go:73-85 | all four parts are written, or what is left of them when a write failed |
| Forwarded.InsertHeader | cmd/httpsproxy/main.go:63-92 | for every split into reads: written and rest are the stream with the header in it, unless a write failed, or a read failed and no line end had come, or a full buffer has none; the buffer is zeroed |
| Forwarded.ProxyConn | cmd/httpsproxy/main.go:53-98 | the backend sees that stream up to a failed read, and if a write fails nothing else and nothing out of order; it sees nothing only if a read failed and no line end had come, or a full buffer has none |
| HashCodec.DigitMeaning | cmd/reverseproxy/main.go:27-39 | the sixteen digits by their characters, printed in upper case and read in both |
| HashCodec.HexMeaning | cmd/reverseproxy/main.go:54-64 | no other characters are digits |
| HashCodec.JoinMeaning | cmd/reverseproxy/main.go:54-68 | two digits are a number to the base of 16, the first one the higher |
| HashCodec.DigitRoundTrip | cmd/reverseproxy/main.go:27-39 | the digits of a byte read back as the byte |
| HashCodec.ValueRoundTrip | cmd/reverseproxy/main.go:54-68 | two digits read are printed as themselves in upper case |
| HashCodec.MarshalJSON | cmd/reverseproxy/main.go:22-42 | the text spells the hash, in upper case |
| HashCodec.UnmarshalJSON | cmd/reverseproxy/main.go:46-72 | accepts exactly the well-formed texts, and sets every byte to what they spell |
| HashCodec.SpellingUnique | cmd/reverseproxy/main.go:46-72 | a text spells one hash |
| HashCodec.PrintAfterParse | cmd/reverseproxy/main.go:22-72 | two texts of one hash differ only in case |
| HashCodec.RoundTrip | cmd/reverseproxy/main.go:22-72 | printed and read back: the same hash |
| HashCodec.Canonical | cmd/reverseproxy/main.go:22-72 | read and printed: the same text in upper case |
| Config.StepKeeps | cmd/reverseproxy/rpc.go:251-632 | every operation keeps the configuration in order |
| Config.PortsExactlyReferenced | cmd/reverseproxy/servers.go:99-142 | in every run the redirects' open Ports are exactly those the configuration refers to, each from one started record with its number and matcher; a running command has status 1 |
| Config.PortKept | cmd/reverseproxy/rpc.go:251-406 | in every run no operation but its own stop closes a redirect's Port or loses its record |
| Config.CommandKept | cmd/reverseproxy/rpc.go:280-406 | in every run no operation but its own stop or reaper parts a record from its running command |
| Config.NewIdFresh | cmd/reverseproxy/servers.go:56-81 | a new id, of a redirect or of a command, is above every id of its kind given out before, exactly until its counter comes round |
| Config.MatchesAsMade | cmd/reverseproxy/servers.go:56-67 | in every run a redirect, and the Port it holds, match exactly the names of the list it was made with; so those of the list it shows if and only if both accept the same names |
| Config.ModifyTakesEffect | cmd/reverseproxy/rpc.go:476-481 | in every run a modified redirect accepts what its new list accepts if and only if that list accepts the same names as the one it was made with |
| Effects.AddLeaves | cmd/reverseproxy/rpc.go:309-336 | a server of a new name is there with nothing in it, every other as it was; refused exactly where the name is taken |
| Effects.RenameLeaves | cmd/reverseproxy/rpc.go:338-368 | the server is under the new name with all it had, and no more under the old |
| Effects.RemoveLeaves | cmd/reverseproxy/rpc.go:370-406 | the server is gone and every other as it was, exactly if no redirect is started and no status other than 0; its name can be taken again |
| Effects.AddRedirectLeaves | cmd/reverseproxy/servers.go:56-67 | the next record shows the given data, not started, no Port, the list's matcher; every other record as it was |
| Effects.ModifyRedirectLeaves | cmd/reverseproxy/rpc.go:466-482 | the data are the new ones, matcher and all else as they were |
| Effects.RemoveRedirectLeaves | cmd/reverseproxy/rpc.go:502-515 | the record is gone and every other as it was |
| Effects.RunRedirectLeaves | cmd/reverseproxy/servers.go:115-127 | the record holds the Port and is started, or nothing has changed |
| Effects.StartRedirectLeaves | cmd/reverseproxy/rpc.go:532-545 | that, for a record that is not started; otherwise why it is refused |
| Effects.StopRedirectLeaves | cmd/reverseproxy/servers.go:129-142 | the record is not started and holds nothing; its Port alone is no longer open |
| Effects.AddCommandLeaves | cmd/reverseproxy/servers.go:69-81 | the next record shows the given data, not started, status 0, no handle, the list's matcher; every other record as it was |
| Effects.ModifyCommandLeaves | cmd/reverseproxy/rpc.go:484-500 | the data are the new ones, matcher and all else as they were |
| Effects.RemoveCommandLeaves | cmd/reverseproxy/rpc.go:517-530 | the record is gone and every other as it was |
| Effects.RunCommandLeaves | cmd/reverseproxy/servers.go:179-242 | a handle, status 1 and the start flag, or status 2 and no handle; nothing where there is a handle already |
| Effects.StartCommandLeaves | cmd/reverseproxy/rpc.go:547-564 | that, for a record whose status is not 1; after a failed start the server is not removed |
| Effects.StopCommandLeaves | cmd/reverseproxy/servers.go:244-259 | the record is not started and has no handle; its status is 0 if it had one, and stays 1 otherwise |
| Effects.ReapLeaves | cmd/reverseproxy/servers.go:217-234 | the record loses its handle, and has status 2 if the command was its own; every other record is as it was |
| Effects.ReapedServerStays | cmd/reverseproxy/rpc.go:391-395 | the server of a command that ended by itself is not removed |
| Reaping.StepInStep | cmd/reverseproxy/servers.go:214-257 | an operation parts status 1 from a running command if and only if it is a reaper that finds another command than its own |
| Reaping.InStepExactly | cmd/reverseproxy/servers.go:214-257 | in every run the two go together all the time if and only if no such reaper comes |
| Reaping.WedgedRefuses | cmd/reverseproxy/rpc.go:280-406 | a record of status 1 without a command can be neither started, changed nor removed, nor its server, a stop leaves it so, and its ports are asked of a nil command |
| Reaping.WedgedForEver | cmd/reverseproxy/rpc.go:280-632 | and so it stays in every continuation of the run |
| Reaping.NilExactly | cmd/reverseproxy/rpc.go:634-664 | in every run the ports are asked of a nil command if and only if the record is such a one; with no late reaper, never |
| Reaping.StaleReaperRun | cmd/reverseproxy/servers.go:214-234 | for any two commands a run that comes to it: started, stopped, started again before the first is reaped |
| Reaping.RunLinked | cmd/reverseproxy/servers.go:46-81 | in every run the command records that know their server are exactly those that the file had |
| Reaping.DownExactly | cmd/reverseproxy/servers.go:217-234 | in every run the process ends with an operation if and only if that is the reaper of a command added since start-up that has not been stopped |
| Reaping.AddedEndsRun | cmd/reverseproxy/servers.go:217-234 | for any command a run that comes to it: added, started, and gone by itself |
| Management.Manager.PortsExactlyHeld | cmd/reverseproxy/servers.go:115-142 | the registry's open Ports of redirects are exactly those that records hold, one each, for the number the record shows |
| Management.Manager.constructor | cmd/reverseproxy/servers.go:36-54 | the file read: records with their matchers and counters, holding nothing; a run of Config starts from it |
| Management.Manager.InitRedirect | cmd/reverseproxy/servers.go:107-113 | a redirect that is to be started takes a Port exactly if it has both addresses and adding one succeeds; a step of the run |
| Management.Manager.InitCommand | cmd/reverseproxy/servers.go:169-177 | a command that is to be started has a process exactly if it starts; a step of the run |
| Management.Manager.Serve | cmd/reverseproxy/main.go:176-186 | start-up is over |
| Management.Manager.Note | cmd/reverseproxy/rpc.go:251-632 | one more operation of the run that has made the configuration what it is |
| Management.Manager.Add | cmd/reverseproxy/rpc.go:309-336 | a new empty server, or refused because the name is taken; nothing else changes |
| Management.Manager.Rename | cmd/reverseproxy/rpc.go:338-368 | the record moves to the new name with all it holds; refused if that is taken or the old is unknown |
| Management.Manager.Remove | cmd/reverseproxy/rpc.go:370-406 | the server goes with all its records, as Effects.RemoveLeaves says of the maps; refused exactly when a redirect is started or a command's status is not 0 |
| Management.Manager.AddRedirect | cmd/reverseproxy/servers.go:56-67 | a record of an id that none has; not started, holding no Port |
| Management.Manager.AddCommand | cmd/reverseproxy/servers.go:69-81 | a record of an id that none has; not started, nothing running |
| Management.Manager.GetRedirect | cmd/reverseproxy/rpc.go:251-267 | what it lets through holds no Port, so nothing is lost; what it does not, every operation it guards answers as it says and changes nothing |
| Management.Manager.GetCommand | cmd/reverseproxy/rpc.go:280-296 | what it lets through has no process, so nothing is lost; what it does not, every operation it guards answers as it says and changes nothing |
| Management.Manager.ModifyRedirect | cmd/reverseproxy/rpc.go:466-482 | changes the data of a stopped redirect and not its matcher; refused while it is started |
| Management.Manager.ModifyCommand | cmd/reverseproxy/rpc.go:484-500 | changes the data of a command and not its matcher; refused while its status is 1 |
| Management.Manager.RemoveRedirect | cmd/reverseproxy/rpc.go:502-515 | a stopped redirect goes and no other; refused while it is started |
| Management.Manager.RemoveCommand | cmd/reverseproxy/rpc.go:517-530 | a command goes and no other; refused while its status is 1 |
| Management.Manager.RunRedirect | cmd/reverseproxy/servers.go:115-127 | one new Port of the registry, for a service of its own, exactly if the redirect has both addresses and no Port and adding one succeeds; else nothing changes; a started record |
| Management.Manager.OpenPort | redirect.go:38-44 | a new open Port for a service of its own, or none exactly if the number would have to be bound and cannot be; everybody else's Ports stay |
| Management.Manager.TakePort | cmd/reverseproxy/servers.go:119-123 | the record takes the Port up |
| Management.Manager.RunCommand | cmd/reverseproxy/servers.go:179-242 | status 1 and a new command of the proxy, with the record's matcher; on a failed start status 2; nothing if it runs already |
| Management.Manager.StartRedirect | cmd/reverseproxy/rpc.go:532-545 | a stopped redirect takes a Port exactly if it has both addresses and none yet and adding one succeeds; success is reported even where it does not |
| Management.Manager.StartCommand | cmd/reverseproxy/rpc.go:547-564 | a command of another status than 1 has a process exactly if it starts, and an error is returned exactly if it does not |
| Management.Manager.StopRecord | cmd/reverseproxy/servers.go:129-142 | closes in the registry exactly the Port this redirect holds, if any |
| Management.Manager.ClosePort | cmd/reverseproxy/servers.go:136-142 | exactly this Port is closed in the registry |
| Management.Manager.StopRedirect | cmd/reverseproxy/rpc.go:566-598 | the same; refused if it is not started, and then it holds none |
| Management.Manager.StopProcess | cmd/reverseproxy/servers.go:244-259 | closes in the registry exactly the Ports of the command that this record has, if any; its handle and status go only if it has one |
| Management.Manager.StopCommand | cmd/reverseproxy/rpc.go:600-632 | the same; refused unless its status is 1, and then it has none |
| Management.Manager.CommandPorts | cmd/reverseproxy/rpc.go:634-664 | the numbers a running command has open; guarded by status 1, and a nil command where there is none |
| Management.Manager.Reap | cmd/reverseproxy/servers.go:214-234 | the handle goes whatever it is, the status only if the command is the reaper's own; and that ends the process if the record does not know its server |
| Management.Manager.ChildMessage | unix.go:168-198 | a child's message leaves the configuration and its Ports as they are |
| Management.Manager.ChildGone | unix.go:143-157 | a child that is gone takes its own Ports with it and no others |
| Management.IsIdle | cmd/reverseproxy/rpc.go:385-395 | the two loops find a record that is started or not stopped exactly if there is one |
| Management.LastId | cmd/reverseproxy/servers.go:36-54 | the counter starts at the highest id in use, or 0 |
| Management.ReadServer | cmd/reverseproxy/servers.go:36-54 | a server's records with the data and start flags of the file, and its counters at the highest ids there are |
| Management.ReadFile | cmd/reverseproxy/servers.go:16-20 | the servers of the file, as a run starts from them |
| Locks.PathOrdered | unix.go:50-199 | every path takes its locks in one order and gives all of them back, unless a bind fails in it |
| Locks.PathCalm | proxy.go:147-162 | once a bind has failed in a path, the path does not give lMu back |
| Locks.NoDeadlock | proxy.go:140-203 | in every reachable state of any number of threads in which no bind has failed, some thread can go on, unless all are finished |
| Locks.MutualExclusion | proxy.go:140-203 | in every run a lock that one thread holds, and not for reading, no other holds |
| Locks.PathMinds | proxy.go:49-222 | every path touches each shared datum under the datum's lock, and writes it holding that alone, if and only if it is not one of three |
| Locks.NoRace | unix.go:50-199 | in every run without a path that is careless of a datum, no thread writes it while another is at it |
| Locks.CarelessRaces | proxy.go:53-57 | for each careless path a run in which it races: a failing accept loop with Port.Close, Port.Closed with that, start-up or exit with a reaper |
| Locks.FailedBindWedges | proxy.go:149-152 | in every run, once a bind has failed, whoever asks for lMu waits for it in every continuation, the thread it failed in included |
| Locks.BindFailsInARun | proxy.go:149-152 | there is such a run for every port |
| Copying.CounterExact | redirect.go:14-36 | in every interleaving the counter is the number of unfinished copiers in 64 bits and never falls below zero; Active is exact below 2^64 of them |

## Left out

- Commands.UnixCmd.Close: the signal and the closing of the socket themselves; whether they fail is a parameter.
- Child.Receiver.Adopt: a queued connection that no one accepts for three minutes is closed; the channel here never times out.
- EndToEnd.ToAddress: the copy back from the backend, which is the same code with the ends exchanged; that neither end is closed when the dial or the first write fails.
- Management.Manager.Add: broadcasting, here and in every handler; that a save fails is a parameter, and answered with an error after the change was made.
- Management.Manager.RunCommand: the environment, user and working directory of the process, and its error text.
- Management.Manager.RunRedirect: nothing follows a bind that fails, since lMu is then locked.
- Aliasing of configuration records: server, redirect and command records are values in a map here, a command's identified by a number where the code keeps a pointer.
- Management.Manager.Reap: the second Wait, in runCmdLoop, and the error that one of the two then returns.
- Listen and listener.Close are steps of `Toggle` and not methods; the fallback to net.Listen and the parsing of the address are not part of this model.
- `Forward.Proxy.Transfer` is one method: another transfer touches neither its connection nor, by `Buffers.AsIfAlone`, its buffer, and the registry it searches is that of the moment of the search.
- The non-atomic insertion in addPort.
- A connection of a child that is read and closed at the same time: both would clear and give back its buffer.
- Liveness at the end of a session: a Listen that waits when the socket dies, a send on a channel being closed.
- unixService.Active: its counter is raised and lowered around one write, as in `Copying` with one copier.
- Sockets, descriptors, timers, finalizers, signals; net.SplitHostPort, bytes.Index and the byte readers are written out as what they compute.
- The web interface and its broadcasts, JSON text, prompts, authentication, certificates, `cmd/simple`.
