# LED cube matrix server: a verified model

This project models how pixels get from an application to the LEDs of the cube, and proves what the
code on that way keeps.

- `Cobs.dfy`, `CobsStream.dfy`, `SocketConnection.dfy`: byte stuffing, the incremental receiver, the
  write queue with one outstanding write, and delivery end to end over any chunking; `CobsTextbook.dfy`:
  which frames of the published encoder the decoder here gives back.
- `WsSession.dfy`: the WebSocket queue that drops frames under pressure.
- `Screen.dfy`, `Cube.dfy`, `Line.dfy`, `Circle.dfy`: pixel stores, the six panels folded onto the
  66-cubed lattice, and the integer line and circle rasterisers, each against a closed form.
- `Messages.dfy`, `Server.dfy`, `Application.dfy`: the application stack and its clients;
  `Stack.dfy` has the server's runs alone, `Protocol.dfy` the runs of server and clients together,
  `Accounts.dfy` what frames and acknowledgements add up to, `Stall.dfy` what a refused frame or a kill
  does to a client, `Clients.dfy` what clients answer and when they draw nothing, and `FlowControl.dfy`
  what is left of the flow control with several renderers.
- `Rotation.dfy`, `SpiRenderer.dfy`, `FtdiRenderer.dfy`, `RgbMatrixRenderer.dfy`: the frame builders.
- `Bytes.dfy`: bytes and shared sequence facts.

Objects that the program updates in place are classes; each method is proved equal to a function of
the state before, and the theorems are about those functions and about runs of them. A run is a list
of steps; a theorem over runs quantifies over all of them.

Assumptions, all in the step definitions: a handler call, a server tick and one step of a drawing
thread are atomic, although the program's top test (`server/Server.cpp:199-205`) and its reply
(`server/Server.cpp:240-243`) are separate critical sections; channels are FIFO; ids of new applications
are non-zero and new, which `server/App.cpp:44-47` does not check; `loop()` does not throw. The
number of renderers is a parameter of the runs; a theorem about one renderer says so. Screens are sent under
their position. Integers in the rasterisers are unbounded.

Where the code and what it is for part ways, the code is followed and the exact condition proved:

- a frame refused while its application is not on top is answered with a pause and never acknowledged
  (`server/Server.cpp:236-244`): with one renderer that application cannot draw again after a resume, with
  any number it can exactly if an acknowledgement or another frame is left (`Stall.DrawsAgainIffRightLeft`,
  `Stall.DrawsAgainIffNeverRefused`, `FlowControl.RefusedStillDraws`);
- an application below the top that has handled everything can be running: its server info starts it even
  if the pause came first (`Protocol.CaughtUp`, `Stall.RunsBelowTheTop`);
- an application killed while it waits for an acknowledgement does not end: the handler waits for the
  drawing thread and no longer takes messages (`Stall.KillEndsIffNotWaiting`);
- every renderer acknowledges a frame (`server/Server.cpp:207-225`), and in hardware mode there are two
  (`server/main.cpp:69-76`): the acknowledgements then bound nothing
  (`FlowControl.FramesBoundedIffOneRenderer`);
- the FTDI pixel word loses red's lowest bit under bright green (`FtdiRenderer.PackingIsLossy`,
  `FtdiRenderer.GreenIsSentReddish`);
- the SPI back buffer has a fixed size that nothing compares with a frame (`SpiRenderer.FrameFitsBuffer`);
- the RGB matrix turns 90 and 270 degree panels the other way (`RgbMatrixRenderer.RgbAgainstFpga`);
- the decoder drops a data byte of frames that end on a full block without a further code byte
  (`CobsTextbook.TextbookSurvives`);
- a line drawn backwards can differ (`Line.ReversedLine`, `Line.ReversedLineIsSame`).

The centre is all of a circle of radius 0 (`Circle.DrawCircle2D`).

## Model

| member | source | states |
|---|---|---|
| Cobs.Encode | common/Cobs.cpp:104-134 | For every byte string the back-patching loop, with all its `.at` indices in range and its code byte never wrapping, returns `Stuffed`: code groups of at most 254 data bytes and a final zero that is a left-over of the zero-filled buffer |
| Cobs.Decode | common/Cobs.cpp:136-151 | On every frame whose groups stay inside it and yield a byte to remove, the two nested loops return `Decoding`; on other frames the program's behaviour is undefined and the specification says Damaged |
| Cobs.RoundTrip | common/Cobs.cpp:104-151 | Decoding the encoding of any byte string gives it back: the byte `pop_back` removes is always a synthetic zero |
| Cobs.StuffedInjective | common/Cobs.cpp:104-134 | Different messages have different frames |
| Cobs.OneDelimiter | common/Cobs.cpp:104-134 | A frame holds exactly one zero byte, its last |
| Cobs.EncodedLength | common/Cobs.cpp:104-134 | A frame is n + k + 2 bytes long, k the number of full 254-byte blocks in the zero-free stretches of the message, k <= n/254; it always fits the buffer the encoder allocates |
| Cobs.ReencodingIsExact | common/Cobs.cpp:104-151 | The image of the encoder: a zero-free body is re-encoded to itself if and only if its groups end exactly at its end and the last one is not a full one |
| CobsTextbook.TextbookSurvives | common/Cobs.cpp:136-151 | A frame of the published encoder, which omits the code byte after a final full block, decodes to its message if and only if the zero-free stretch the message ends with is empty or no whole number of 254-byte blocks; otherwise to the message without its last byte |
| CobsTextbook.OneBlockLosesItsLastByte | common/Cobs.cpp:145-149 | 254 bytes of value 1 are such a message: 253 of them come back |
| CobsStream.Decoder.InsertBytesAndReturnDecodedPackets | common/Cobs.cpp:74-102 | One call over any buffer and any chunk: the packets are those of the frames of buffer and chunk together, what follows the last zero is kept, too much input empties the buffer; afterwards the buffer is zero-free and at most 1048576 bytes long |
| CobsStream.SplitIsExact | common/Cobs.cpp:84-99 | The frames and the rest put together are the stream; every frame is a zero-free stretch and one zero, the rest is zero-free |
| CobsStream.SplitIsUnique | common/Cobs.cpp:84-99 | No other list of frames and zero-free rest makes up the same stream |
| CobsStream.SplitAppend | common/Cobs.cpp:84-99 | The frames of a longer stream are those of a prefix and then those of its unfinished rest continued |
| CobsStream.ChunkingIndependent | common/Cobs.cpp:74-102 | However a stream is cut into chunks, as long as the size guard does not trip, all packets and the final buffer are those of splitting the whole stream at its zeros |
| CobsStream.ShortFramesFit | common/Cobs.cpp:78-82 | If zero-free stretches and reads are together at most the limit, the guard trips in no chunking |
| CobsStream.Resynchronise | common/Cobs.cpp:74-102 | Whatever zero-free bytes the buffer holds and however the stream is chunked, from the next delimiter on the decoder returns and keeps what a fresh one does on any chunks of the rest; only the frame being received can differ |
| CobsStream.ResynchroniseLater | common/Cobs.cpp:74-102 | The same after any earlier calls, also those in which the size guard threw bytes away |
| CobsStream.OverflowRecovers | common/Cobs.cpp:78-82 | After a call that overflows, if reads and frames are short again, no later call does, and every frame behind the one that was cut in two arrives |
| SocketConnection.Connection.SendMessage | common/SocketConnection.cpp:60-74 | Encodes the message and puts its frame behind the others if at most 100 are queued, otherwise changes nothing; starts a write exactly when the queue was empty and none was running |
| SocketConnection.Connection.HandleWrite | common/SocketConnection.cpp:85-100 | Removes the front frame whether or not the write failed, goes on exactly if there is another one, and marks the connection dead on an error |
| SocketConnection.Connection.HandleRead | common/SocketConnection.cpp:34-57 | Hands the bytes to the stream decoder and returns its packets in order; on an error only marks the connection dead |
| SocketConnection.StepKeeps | common/SocketConnection.cpp:34-100 | Every send, partial write, completion and read keeps: writing exactly when the queue is not empty, and bytes read, on the wire and still queued are together the frames of the accepted messages in order |
| SocketConnection.AcceptedStream | common/SocketConnection.cpp:60-74 | The byte stream of any list of messages splits into exactly their frames, and its packets are the non-empty messages |
| SocketConnection.EndToEnd | common/SocketConnection.cpp:34-100 | In every run of sends, partial writes, completions and reads of any sizes in which the receiver never overflows, the peer holds an in-order prefix of the accepted non-empty messages, and all of them once queue and wire are empty |
| SocketConnection.ShortFramesNeverTrip | common/SocketConnection.h:13 | With reads of at most 200000 bytes, no run that sends only frames of at most 848577 bytes makes the receiver drop its buffer |
| SocketConnection.ShortFramesArrive | common/SocketConnection.cpp:34-100 | The two together: with short frames, end-to-end delivery holds in every run |
| SocketConnection.AcceptedIsTaken | common/SocketConnection.cpp:62-72 | In every run the queue accepts exactly the messages that find at most 100 frames queued; if all of them do, these are the messages sent, in order |
| SocketConnection.SentMessagesArrive | common/SocketConnection.cpp:34-100 | In every run of frames of at most 848577 bytes the peer holds an in-order prefix of the non-empty messages that found at most 100 frames queued, and all of them once queue and wire are empty |
| SocketConnection.ReadSizes | common/SocketConnection.h:13 | A read takes up to 200000 bytes |
| WsSession.Session.SendMsg | renderer/WebSocketSimulatorRenderer/WsSession.h:71-83 | Puts the message behind the others, unless it may be dropped and more than two are queued: then nothing changes; starts a write exactly when none was running and the queue was empty |
| WsSession.Session.OnWrite | renderer/WebSocketSimulatorRenderer/WsSession.h:92-103 | Removes the written message and goes on exactly if there is another one; a failed write only reports the close and leaves queue and flag as they are |
| WsSession.StepKeeps | renderer/WebSocketSimulatorRenderer/WsSession.h:71-103 | Every post and every completed or failed write keeps the order, the undroppable messages, the writing flag and the bound on droppable ones |
| WsSession.SentInOrder | renderer/WebSocketSimulatorRenderer/WsSession.h:71-103 | In every run the sent messages are a subsequence of the posts in their order; every undroppable post is sent or still queued; the writing flag is set exactly when the queue is not empty; only the first three queue places ever hold droppable frames |
| WsSession.DroppedIffCrowded | renderer/WebSocketSimulatorRenderer/WsSession.h:74-77 | In every run a post is lost if and only if it may be dropped and finds more than two messages queued |
| Screen.IndexInjective | common/Screen.cpp:45-47 | No two pixels share a place in the store |
| Screen.ReadAfterWrite | common/Screen.cpp:57-67 | A written pixel reads back its colour, an added colour in each channel the sum or 255, whichever is less; every other pixel is unchanged, and beside the screen everything reads black |
| Screen.Screen.SetPixel | common/Screen.cpp:57-60 | Leaves exactly the store `Write` describes, for every coordinate pair |
| Screen.FrameIsItsPixels | common/Screen.cpp:29-67 | What `getPixel` reads at all coordinate pairs is all there is in a frame: no place of the store is out of sight, so frames that look alike are the same data |
| Screen.SetAllScreenData | server/Server.cpp:208-217 | After a frame message each of the renderer's screens holds the last data sent for it, or what it held; data for screens it does not have is skipped |
| Screen.FrameArrives | application/MatrixApplication.cpp:100-125 | An application that sends its screens in order, each under its position, leaves on every screen of the renderer exactly the store it drew, whatever was there |
| Screen.Screen.Fill | common/Screen.cpp:73-79 | Every pixel of the screen reads the colour |
| Screen.Screen.Clear | common/Screen.cpp:69-71 | Every pixel of the screen reads black |
| Cube.Cube.SetPixel3D | application/CubeApplication.cpp:25-51 | For every lattice or off-lattice point the six stores together become `SetVoxel` of what they were: at most one pixel of one panel changes |
| Cube.Cube.GetPixel3D | application/CubeApplication.cpp:89-118 | Reads the panel pixel the point belongs to by the order of the tests, and black inside the cube |
| Cube.DrawnOnItsFace | application/CubeApplication.cpp:25-51 | With all numbers written out: a point on or beyond the inside of a face is drawn on that face's screen, 0 to 5, at its two coordinates along the face; a point within the cube nowhere |
| Cube.NothingPastAnEdge | application/CubeApplication.cpp:25-51 | A point beyond two or three faces is drawn nowhere |
| Cube.ReadOnItsFace | application/CubeApplication.cpp:89-118 | On the lattice reading looks where drawing draws; within the cube it is black |
| Cube.EdgesAreBlack | application/CubeApplication.cpp:89-118 | On the edges and corners of the lattice reading is black |
| Cube.PanelsMeet | application/CubeApplication.cpp:417-446 | A step off a panel leads to the same lattice point as a step off its neighbour: the four sides go round in order, top and bottom join front and back |
| Cube.PixelAfterVoxel | application/CubeApplication.cpp:25-51 | After drawing a voxel a panel pixel has changed exactly if it is the place of the clamped point |
| Cube.PlaceOfPanelPoint | application/CubeApplication.cpp:417-446 | A panel point folded onto the cube and placed again is itself; a point beside its panel lands on no panel at all |
| Cube.FoldAndClip | application/CubeApplication.cpp:417-446 | Drawing at a panel point changes that pixel and no other; drawing beside the panel changes no pixel of any screen |
| Cube.SurfaceBijection | application/CubeApplication.cpp:25-51 | The lattice points on exactly one face correspond one for one to the 6*64*64 panel pixels; points on two or three faces are drawn nowhere |
| Cube.PaintPanel | application/CubeApplication.cpp:417-446 | Plotting any list of panel points colours exactly the pixels of that panel among them |
| Cube.SurfaceMemory | application/CubeApplication.cpp:25-118 | After any sequence of writes a point of one face reads what the writes that clamp to it leave, and no others matter |
| Cube.AdditiveLight | common/Color.cpp:102-107 | Additive writes to a black point leave in each channel the sum of all of them if that is below 255, else 255 |
| Cube.LightIgnoresOrder | common/Color.cpp:102-107 | Two orders of the same additive writes leave the same colour |
| Cube.ClearedCubeLight | application/CubeApplication.cpp:25-51 | The same read through `getPixel3D` at any point of one face that was black |
| Line.RoundedStep | application/CubeApplication.cpp:238-246 | The rounded coordinate moves on exactly when the exact one has passed the half |
| Line.Error2Decides | application/CubeApplication.cpp:238-246 | The two error tests say exactly which rounded coordinate moves, and the updates keep the error at (j+1)*dx - (i+1)*abs(dy) |
| Line.DrawLine2D | application/CubeApplication.cpp:228-248 | Terminates for all end points and plots the closed form `Line2` on the panel: step k of d at the two coordinates k/d of the way, rounded, halves towards the start |
| Line.Line2Shape | application/CubeApplication.cpp:228-248 | max(abs dx, abs dy)+1 points from one end to the other, consecutive ones different and 8-adjacent, each within half a pixel of the ideal line |
| Line.LinePixels | application/CubeApplication.cpp:228-248 | On the cube exactly the line's points on the panel have the colour; every other pixel is as before |
| Line.ReversedLine | application/CubeApplication.cpp:228-248 | Drawn from its other end a line has the same point at step k of d if and only if 2*k*m mod 2*d is d for neither extent m: the exact point is halfway between two pixels on neither axis |
| Line.ReversedLineIsSame | application/CubeApplication.cpp:228-248 | The whole line drawn from its other end is the same list of points reversed if and only if both extents are multiples of the largest power of two in the number of steps |
| Line.ReversedKnight | application/CubeApplication.cpp:228-248 | From any (x,y) to (x+2,y+1) the line goes through (x+1,y), back through (x+1,y+1) |
| Line.AxisStep | application/CubeApplication.cpp:163-214 | The sign of a minor axis's error says exactly when it moves, and the updates keep the error right |
| Line.AlongX | application/CubeApplication.cpp:163-179 | The loop over x plots every point of the closed form but the last, which it returns |
| Line.AlongY | application/CubeApplication.cpp:180-196 | The loop over y does the same when y is the longest extent |
| Line.AlongZ | application/CubeApplication.cpp:197-214 | The loop over z does the same when z is the longest extent |
| Line.DrawLine3D | application/CubeApplication.cpp:144-216 | For all end points plots the closed form `Line3`, whichever branch runs |
| Line.Line3Shape | application/CubeApplication.cpp:144-216 | max(l,m,n)+1 points from one end to the other, consecutive ones adjacent and different, each axis within half a voxel of the ideal line |
| Line.SameLineOnAPanel | application/CubeApplication.cpp:144-248 | Between two points of one panel the 3D line is point for point the 2D line on it |
| Circle.DecisionStep | application/CubeApplication.cpp:498-504 | The two updates keep radiusError at (x-1)^2 + (y+1)^2 - r^2 + r - 1 |
| Circle.OctantStep | application/CubeApplication.cpp:489-505 | Below the diagonal the loop's next point is again the innermost column outside radius r - 1/2 in its row |
| Circle.OctantEnd | application/CubeApplication.cpp:489-505 | When the loop stops, no row of the octant is missing |
| Circle.DrawCircle2D | application/CubeApplication.cpp:484-506 | Terminates for every radius and centre; a pixel of the panel takes the colour exactly if its offset is on `OnCircle`, the eight mirror images of the innermost points outside r - 1/2; radius 0 plots the centre only, a negative one nothing; no other pixel or screen changes |
| Circle.OnePerRow | application/CubeApplication.cpp:484-506 | A row of the octant has at most one point |
| Circle.HalfPixelBand | application/CubeApplication.cpp:484-506 | For r >= 1 every plotted offset satisfies (2r-1)^2 < 4(a^2+b^2) < (2r+1)^2 |
| Circle.NoGaps | application/CubeApplication.cpp:484-506 | The octant starts on the axis at (r,0); each of its points has one in the row before and, if it is more than a column off the diagonal, one in the row after, at most a column away |
| Circle.OutlineIsARing | application/CubeApplication.cpp:484-506 | For every r >= 1 the outline is a closed 8-connected ring: there is a list of exactly the plotted points, each once, in which every point touches the next and the last touches the first |
| Circle.RadiusFour | application/CubeApplication.cpp:484-506 | The circle of radius 4, on which the decision value meets zero, passes (3,2) and (4,1), not (4,2) |
| Server.Server.HandleRequest | server/Server.cpp:153-324 | The new stack, every message sent and its order, and how often the frame is rendered, for every request on every connection |
| Server.Server.Tick | server/Server.cpp:326-397 | A kill for the top application when the button is pressed, removal of applications on dead connections, and a resume when that changes the top |
| Server.Server.SetAppState | server/Server.cpp:251-274 | Changes the state of the first application with the id and nothing else |
| Stack.AliveEntries | server/Server.cpp:383-392 | Removing dead connections filters the applications by id and keeps their order |
| Stack.PromotionIsResume | server/Server.cpp:382-396 | After a removal a resume is due exactly when the stack is shorter, not empty and ends in another application |
| Stack.StackOrderAndResumes | server/Server.cpp:157-396 | Over every run of arbitrary requests and ticks, for any number of renderers: the stack, ids and connections, is the order of the registrations asked for without exactly those applications that a kill named or whose connection was dead at a tick, and resumes were sent exactly once for each removal that brought another application to the top, to that id on the connection it registered on, in that order |
| Application.MatrixApplication.HandleRequest | application/MatrixApplication.cpp:164-294 | The new client state and every reply, for every message type of the stack protocol |
| Clients.ControlIsAnswered | application/MatrixApplication.cpp:204-239 | Pause, resume, kill and the question whether it is alive are each answered by one message of their kind under the application's id; a pause or resume is confirmed exactly if it changed the state, the question exactly if one of them would, a kill always |
| Clients.RegistrationIsAnswered | application/MatrixApplication.cpp:168-188 | A confirmed registration gives the client its id, under which it sends its schema and asks for the server info |
| Clients.KilledLeaves | application/MatrixApplication.cpp:231-239 | In every reachable state an application that handled a kill has its confirmation on the way or is not on the stack; once everything it sent is served, it is not |
| Clients.RecordIsLastWord | server/Server.cpp:251-274 | In every reachable state, once everything an application sent is served, the state the server keeps for it is that of the last pause or resume the application handled |
| Clients.KillGoesToTop | server/Server.cpp:326-336 | Every step: a kill goes out only when the button is pressed, one, and to the application on top |
| Application.MatrixApplication.InternalLoopStep | application/MatrixApplication.cpp:127-154 | One step of the drawing thread: a running application waits for the acknowledgement, spends it, and sends one frame for it, also when it was paused meanwhile; one that is not running begins none |
| Clients.NotRunningDrawsNothing | application/MatrixApplication.cpp:131 | A client that is paused or not started and between two frames sends nothing in any run in which it handles no message |
| Clients.PassSendsOneFrame | application/MatrixApplication.cpp:139-145 | The end of a pass sends one frame under the application's id whatever `loop()` returned; the thread goes on exactly if `loop()` asked for it and no kill came |
| Clients.EndedForGood | application/MatrixApplication.cpp:129-154 | A thread that has ended stays so and sends no frame in any continuation |
| Application.MatrixApplication.Pause | application/MatrixApplication.cpp:318-324 | Pauses a running application only, and says whether it did |
| Application.MatrixApplication.Resume | application/MatrixApplication.cpp:326-332 | Resumes a paused application only, and says whether it did |
| Protocol.StepKeeps | server/Server.cpp:153-397 | Every step of server, tick, client handler, drawing thread, new connection or death keeps the client state, the stack control and the ids, for all connections at once and any number of renderers |
| Protocol.OnlyTheTopIsUnpaused | server/Server.cpp:157-396 | In every reachable state, with any number of renderers, the last pause or resume sent to a registered application is a pause exactly if it is not on top |
| Protocol.StateOfLog | application/MatrixApplication.cpp:189-230 | A client that was not killed is starting until its server info came, and then paused exactly if the last of pause, resume and server info was a pause |
| Protocol.CaughtUp | application/MatrixApplication.cpp:189-230 | In every reachable state, with any number of renderers, an application that handled everything sent to it, is set up and was not killed runs if it is on top; if not, it is paused exactly if a pause is the last of the pauses, resumes and server infos it was sent |
| Stall.RunsBelowTheTop | application/MatrixApplication.cpp:189-203 | A concrete run in which the server info comes after the pause: the application is not on top, has handled everything, and runs |
| Protocol.OnlyTheTopIsDrawn | server/Server.cpp:198-246 | In every state of the invariant a frame is rendered on every renderer, and acknowledged once for each, exactly if it comes from the top application's connection, and otherwise answered with a pause |
| Accounts.AccountsBalance | server/Server.cpp:207-225 | In every reachable state, for every connection and any number of renderers: the acknowledgements sent are the rendered frames times the renderers, and frames sent or begun are at most one more than the acknowledgements handled, exactly one more with at most one renderer |
| Accounts.CreditIsConserved | application/MatrixApplication.cpp:132-140 | With one renderer, in every reachable state and for every connection: acknowledgement at hand + frame being drawn + frames in flight + acknowledgements in flight + refused frames is 1 |
| Accounts.SpentForGood | application/MatrixApplication.cpp:132-140 | With any number of renderers a client without an acknowledgement at hand or on the way and without a frame being drawn or on its way sends no frame in any continuation and stays without |
| Accounts.RefusedIsSpent | server/Server.cpp:236-244 | With one renderer a client is in that state exactly if one of its frames was refused, and no more than one ever is |
| Accounts.RefusedFallsSilent | server/Server.cpp:236-244 | With one renderer, after a refused frame the client sends no frame in any continuation, not even when told to resume, and no second one is ever refused |
| Protocol.KilledWhileWaitingHangs | application/MatrixApplication.cpp:231-239 | A client killed while its drawing thread waits for an acknowledgement never changes again, whatever else happens |
| Stall.KillEndsIffNotWaiting | application/MatrixApplication.cpp:334-342 | A client that handles a kill on a live connection can end, in some continuation, if and only if its drawing thread is not waiting for an acknowledgement it does not have |
| Stall.KilledInTheOrdinaryCourse | application/MatrixApplication.cpp:127-154 | A concrete run in which no frame is refused and the kill meets the client waiting for the acknowledgement of its first frame; it ends in no continuation |
| Stall.ResumedButSilent | application/MatrixApplication.cpp:221-230 | With any number of renderers a concrete run ends with an application on top that was told to resume, is running and has handled everything, and sends no further frame in any continuation |
| Stall.DrawsAgainIffRightLeft | application/MatrixApplication.cpp:132-140 | In every reachable state, with one or more renderers, an application on top, on a live connection, never sent a kill and with its drawing thread not ended can send another frame if and only if it has an acknowledgement at hand or undelivered, or a frame being drawn or on its way, whatever state it is in and whatever else is on the way |
| Stall.DrawsAgainIffNeverRefused | application/MatrixApplication.cpp:132-140 | With one renderer it can if and only if none of its frames was ever refused |
| FlowControl.FramesBoundedIffOneRenderer | server/main.cpp:69-76 | With at most one renderer a client never has two frames on the way; with two or more, as in hardware mode, for every bound some run has more |
| FlowControl.RefusedStillDraws | server/Server.cpp:207-225 | With two or more renderers some run leaves a client with a refused frame that can still send another |
| Rotation.DirectIndexIsSource | renderer/FPGASPIRenderer/FPGARendererRPISPI.cpp:253-268 | On square panels the SPI renderer's index formulas read the pixels of the FTDI renderer's `getPixel` form for all four rotations, always inside the store |
| Rotation.CornersTurn | renderer/FPGAFTDIRenderer/FPGARendererFTDI.cpp:103-118 | Which corner of the panel each rotation shows at the upper left, and along which edge it goes on |
| Rotation.RotationsCompose | renderer/FPGAFTDIRenderer/FPGARendererFTDI.cpp:103-118 | The four source maps compose as the cyclic group of order four and permute the panel's pixels |
| SpiRenderer.UnpackPacked | renderer/FPGASPIRenderer/FPGARendererRPISPI.cpp:273 | The pixel word has red's five top bits from bit 11, green's from bit 6 and blue's from bit 0 |
| SpiRenderer.SpiWriteQueue.Init | renderer/FPGASPIRenderer/FPGARendererRPISPI.cpp:37-54 | Empties the queue and sets its capacity |
| SpiRenderer.SpiWriteQueue.Add | renderer/FPGASPIRenderer/FPGARendererRPISPI.cpp:56-74 | Appends a copy of the data as one more transfer directly behind the others, all of which keep their bytes; on a full queue changes nothing and says so |
| SpiRenderer.PixelWord | renderer/FPGASPIRenderer/FPGARendererRPISPI.cpp:252-273 | The word of a column is that of the pixel its rotation names |
| SpiRenderer.WritePanel | renderer/FPGASPIRenderer/FPGARendererRPISPI.cpp:251-274 | All 64 columns of a panel are in its slot, low byte first, and no byte outside the slot changes |
| SpiRenderer.BuildLine | renderer/FPGASPIRenderer/FPGARendererRPISPI.cpp:242-277 | The payload of a line holds the start byte and every panel selected for that line, although the previous flush command overwrote its first bytes |
| SpiRenderer.Render | renderer/FPGASPIRenderer/FPGARendererRPISPI.cpp:234-347 | The queue ends with exactly 2*128+1 transfers and (bytesPerLine+3)*128+2 bytes, nothing omitted, within the back buffer: every line's payload and its flush command in order, then the swap |
| SpiRenderer.FrameFitsBuffer | renderer/FPGASPIRenderer/FPGARendererRPISPI.cpp:30-31 | For every number of slots a row: the frame's bytes fit the fixed back buffer if and only if there are at most three |
| SpiRenderer.ParseBack | renderer/FPGASPIRenderer/FPGARendererRPISPI.cpp:239-347 | For every panel and every pixel, the place its rotation gives it in the queued transfers holds its five top bits of each channel, low byte first, in a line flushed to that row; the bytes are given in numbers |
| SpiRenderer.FrameIsUnique | renderer/FPGASPIRenderer/FPGARendererRPISPI.cpp:239-347 | The panels determine every byte of the frame: no stale byte of the reused buffer is sent |
| FtdiRenderer.PackingIsLossy | renderer/FPGAFTDIRenderer/FPGARendererFTDI.cpp:122 | Blue and the low green bits survive the packing; red does if and only if green is below 128 or red's lowest kept bit is set, and else reads one too much |
| FtdiRenderer.GreenIsSentReddish | renderer/FPGAFTDIRenderer/FPGARendererFTDI.cpp:122 | Pure half green is sent with red 1 of 31 |
| FtdiRenderer.PixelWord | renderer/FPGAFTDIRenderer/FPGARendererFTDI.cpp:104-122 | The word of a column is that of the pixel its rotation names |
| FtdiRenderer.WritePanel | renderer/FPGAFTDIRenderer/FPGARendererFTDI.cpp:102-128 | All 64 columns of a panel are in its slot and no byte outside it changes |
| FtdiRenderer.BuildLine | renderer/FPGAFTDIRenderer/FPGARendererFTDI.cpp:84-155 | A line is its header, every panel in its slot, and the flush and deselect trailer for that row |
| FtdiRenderer.LineCommands | renderer/FPGAFTDIRenderer/FPGARendererFTDI.cpp:84-155 | Read as the chip reads it, a line is six commands and nothing more: select, shift out the start byte and the whole payload, deselect, select, shift out the flush of the row, deselect |
| FtdiRenderer.PixelBytes | renderer/FPGAFTDIRenderer/FPGARendererFTDI.cpp:102-122 | Every column of every panel holds in its two payload bytes, low byte first, the colour its rotation names; the bytes are given in numbers |
| RgbMatrixRenderer.DrawPanel | renderer/RGBMatrixRenderer/RGBMatrixRenderer.cpp:66-117 | For each rotation the paired counters set every cell of the panel's square exactly once and no other cell, each with the pixel its turned coordinates name |
| RgbMatrixRenderer.PanelOnCanvas | renderer/RGBMatrixRenderer/RGBMatrixRenderer.cpp:66-117 | In canvas coordinates: the cells from n times the offsets on, n each way, are set once, with the panel's pixel of the inverse turn; all others are untouched |
| RgbMatrixRenderer.Render | renderer/RGBMatrixRenderer/RGBMatrixRenderer.cpp:58-118 | Every canvas point shows the last panel whose square contains it, or what was there |
| RgbMatrixRenderer.RgbAgainstFpga | renderer/RGBMatrixRenderer/RGBMatrixRenderer.cpp:66-117 | The RGB matrix shows what the FPGA renderers read for the inverse rotation, so they agree on a cell if and only if the turn is 0 or 180 degrees or the cell is the centre |

## Left out

- Cobs.Decode: frames on which the program reads past the end or removes from an empty string are undefined there; the model returns Damaged for them and says nothing about the program.
- SocketConnection.Connection.SendMessage: the posted handler runs at once; the order in which posts run is the order of the steps. Message parsing and the receive callback are not modelled.
- SocketConnection.EndToEnd: runs have no write or read errors; after an error the program goes on writing from the next frame.
- Cube.Cube.SetPixel3D: full intensity only; scaling by a float, `setPixelSmooth3D`, `fade` and `fromHSV` are not modelled.
- Cube.PlaceOfPanelPoint: the six panels only; for `anyScreen` the program returns an uninitialised point.
- Application.MatrixApplication.HandleRequest: parameters, screens, brightness, joystick, IMU and audio data are not kept; the reply types of the stack protocol are.
- Application.MatrixApplication.InternalLoopStep: pacing and the reconnection of a dead connection are not modelled; a dead connection ends its client.
- Server.Server.HandleRequest: parameter schemas and values forwarded to renderers, screen contents and brightness are not modelled; the state of a new application, uninitialised in the program, is Unknown.
- Server.Server.Tick: starting and reaping the default application is not modelled.
- SpiRenderer.Render: 64x64 panels in two rows of at most three slots, each filled once, at brightness 100; with more the frame does not fit the fixed back buffer. The vertical sync, the alternation of two back buffers and the transfer itself are not modelled.
- FtdiRenderer.BuildLine: 64x64 panels; the sync, the frame swap and the transfer are not modelled.
- RgbMatrixRenderer.Render: square panels of one size; the canvas takes every coordinate.
- Screens whose rotation is none of the four leave the last colour in place; the model has no such value.
- `drawRect2D`, `drawText` and bitmaps: lists of the line and pixel calls modelled here.
- `getEdgeNumber`, `getCornerNumber`, `getScreenNumber` and random points: tables of comparisons.
- Colour subtraction and comparison: nothing here uses them.
- Sockets, message queues, device drivers, protobuf, configuration and the menu.
