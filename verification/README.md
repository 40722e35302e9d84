# OpenCORE: hand-off protocols and base data structures

A Dafny model of two groups of code in OpenCORE, with proofs of what that code
keeps and where it falls short of what it is for.  `dafny verify dfyconfig.toml`
checks the whole project (Dafny 4.11).

**Hand-off protocols** (`android/`).  Objects that pass buffers or commands
between threads through locked queues.  Each is a state machine, `State` and
`Step`, whose steps are what one thread does between two points where another
can interfere, so that a run of the machine is an interleaving of the real
threads.  Theorems are about every run.  Beside the machine stands a class with
the source's fields; its methods are proved to take the machine's steps.

- `AudioCapture`: four pool chunks between the pool, a request queue, the
  capture thread, a response queue and the peer.
- `AudioPlayback`: playback buffers between a request queue, the audio thread
  with the sink, and a bounded response queue.
- `AuthorDriver`: the command queue of the author engine, the wake-up of its
  active object, and the semaphore the clients wait on.
- `CameraFrames`: camera frames until they are given back, and their stamps.
- `VolumeRamp`: the fixed-point volume ramp at the start of a recording.

**Data structures and codecs** (`baselibs/`, and the charset code of the media
scanner).

- `RtspText`, `RtspParse`, `RtspRoundTrip`, `RtspCompose`: the Range header of
  RTSP and SDP (RFC 2326, sections 3.5, 3.6, 3.7 and 12.29), composed into a
  bounded buffer and parsed back.
- `BitStream`: the bit stream reader and writer.
- `CowString`: the copy-on-write string and its reference counts.
- `ListRun`, `LinkedList`: the linked list whose iterator lives on while the
  list changes.
- `Masks`, `Chains`, `HashTable`: the chained hash table.
- `UriEscape`: the two escaping passes (RFC 3986, sections 2.1 and 2.4).
- `Latin1`: encoding detection and the in-place way back from UTF-8.
- `BufFrag`: seeking in a group of fragments.
- `BoolArray`: the packed array of booleans.

`Counting`, `Powers` and `ByteBuffer` hold what several of them share.

## What the proofs found

Each of these is a lemma or a contract below; the code is modelled as it is.

- Parsing undoes composing only for ranges that are `Faithful`; in particular an
  absolute range is always reported with an end, a stale one if it had none.
- Composing for SDP or RTSP refuses a window of 2^31 bytes or more, and a
  seconds value with a fraction never composes.
- `WriteBits` never completes: it reads its own input with a call that leaves
  on the last bit.
- A write into a shared string over its terminator hides text that the same
  write into an unshared one would bring to light.
- A hash table asked for size zero gets no chains and a full mask, one asked for
  a negative size other than the least is never finished, and an entry added
  under a foreign hash is never found.
- The exit flag of the audio input is never cleared: after a pause at most one
  buffer more is captured. A stop or reset waits for one signal, any
  thread's: it is sure to find nobody capturing exactly if no signal is left
  over, as a failed start leaves one, and no other thread has one still to give,
  as one started after a pause does.
- A playback command can be answered twice, and command 0 without having been
  given, exactly when buffers are asked back from a thread that then finds its
  queue empty with nothing in hand.
- `enqueueCommand` waits even for a command with a completion function, for ever
  if that does not signal; any two clients can be told each other's status.
- A camera frame on another heap is stranded, and lets two queued frames around
  it share a stamp in exactly two coincidences of times; frames at one time are
  stamped t, t + 1, t.
- The driver forgets the camera's heap when the peer gives its last frame back,
  though others wait; frames of two heaps can then be out together.
- Running both URI passes again escapes escapes, unless only spaces needed any.
- Seeking backward out of a fragment ends up off by that fragment's length, with
  a pointer in front of the fragment.
- `set_range` within one word sets the bits before the range too, and `set_size`
  tests the old size.

## Model

| member | source | states |
|---|---|---|
| RtspRoundTrip.RoundTrip | baselibs/gen_data_structures/src/rtsp_range_utils.cpp:481-711 | For every range without fractions of a second that composes at all, parsing the composed text (whatever follows it in memory, whatever the caller's range object held before) gives the range back if and only if the range is faithful: clock fields in range, frames within the format's limit, no subframes without frames, NPT numbers below 2^31, an absolute range with an end (RFC 2326, sections 3.5, 3.6, 3.7 and 12.29) |
| RtspRoundTrip.RoundTripBare | baselibs/gen_data_structures/src/rtsp_range_utils.cpp:569-580 | The same when the length ends in front of the line end, as SDP lines and header values are passed, whatever stands there but a colon or a point: no time is lost for ending where the text ends |
| RtspRoundTrip.Reads | baselibs/gen_data_structures/src/rtsp_range_utils.cpp:481-711 | And for every layout the parser allows: blanks and line ends before the type word, other text before the separator, blanks after it, blanks and line ends after the dash and at the end, inside the length or not |
| RtspRoundTrip.NeedsDash | baselibs/gen_data_structures/src/rtsp_range_utils.cpp:549-560 | A text without a dash is never a range |
| RtspRoundTrip.AcceptedInRange | baselibs/gen_data_structures/src/rtsp_range_utils.cpp:481-711 | Whatever the text, a range that is accepted has every field in its range, except an absolute end taken over from the caller's object |
| RtspRoundTrip.AbsAccepted | baselibs/gen_data_structures/src/rtsp_range_utils.cpp:348-479 | An absolute time is accepted only with its fields in range, its T and its Z where they belong |
| RtspRoundTrip.IntegerWithin | baselibs/gen_data_structures/src/rtsp_range_utils.cpp:40-77 | A number is read up to its field's width, the end or the first separator, and no further |
| RtspRoundTrip.SmpteReads | baselibs/gen_data_structures/src/rtsp_range_utils.cpp:79-191 | At any offset, a composed SMPTE time parses back to itself exactly when its fields are in range for the format and it has no subframes without frames |
| RtspRoundTrip.NptReads | baselibs/gen_data_structures/src/rtsp_range_utils.cpp:193-346 | At any offset, composed NPT text without a fraction (now, seconds, hours:minutes:seconds) parses back to itself exactly when its numbers are in range |
| RtspRoundTrip.AbsReads | baselibs/gen_data_structures/src/rtsp_range_utils.cpp:348-479 | At any offset, a composed absolute time without a fraction parses back to itself exactly when month, day and clock fields are in range |
| RtspRoundTrip.SmpteEnds | baselibs/gen_data_structures/src/rtsp_range_utils.cpp:532-587 | In every layout, a SMPTE range's two ends, either of which may be missing, come back exactly when both are faithful, frames limit of the variant included |
| RtspRoundTrip.NptEnds | baselibs/gen_data_structures/src/rtsp_range_utils.cpp:589-647 | In every layout, an NPT range's two ends come back exactly when both are faithful |
| RtspRoundTrip.AbsEnds | baselibs/gen_data_structures/src/rtsp_range_utils.cpp:651-711 | In every layout, an absolute range comes back exactly when its ends are faithful and the end is there: a missing end is reported as set, with the stale value of the caller's object |
| RtspRoundTrip.SplitEndsReads | baselibs/gen_data_structures/src/rtsp_range_utils.cpp:532-580 | In every such layout the scans find exactly the two texts, or that one of them is not there, with the line end inside the length or behind it |
| RtspRoundTrip.Dispatch | baselibs/gen_data_structures/src/rtsp_range_utils.cpp:490-530 | Any word, behind any blanks, goes to the parser of the first type whose name it is a prefix of, and no other; a SMPTE word to the variant whose name it starts with |
| RtspRoundTrip.AtoiDec | baselibs/gen_data_structures/src/rtsp_range_utils.cpp:40-77 | PV_atoi reads the decimal text of every n below 2^32 as n, in spite of its incomplete overflow test |
| RtspParse.PvAtoi | oscl/oscl/osclbase/src/oscl_string_utils.cpp:38-128 | The loop equals its recursive meaning, incomplete overflow test included |
| RtspParse.ParseRangeInteger | baselibs/gen_data_structures/src/rtsp_range_utils.cpp:40-77 | The digit loop, its field width and its separator: the position and value of the specification, None where the code gives NULL |
| RtspParse.ScanTo | baselibs/gen_data_structures/src/rtsp_range_utils.cpp:497-499 | The scan stops at the first of the given characters, or at the end |
| RtspParse.SkipOver | oscl/oscl/osclbase/src/oscl_string_utils.cpp:283-295 | The skipping loops stop at the first character that is not to be skipped, or at the end |
| RtspText.EstimateSuffices | baselibs/gen_data_structures/src/rtsp_range_utils.cpp:935-1067 | For every composable range without fractions the SDP line, tag included, is no longer than estimate_SDP_string_len |
| RtspText.NptFitsEstimate | baselibs/gen_data_structures/src/rtsp_range_utils.cpp:876-933 | Every NPT time without a fraction that composes is no longer than its estimate |
| RtspText.SmpteTextLength | baselibs/gen_data_structures/src/rtsp_range_utils.cpp:1209-1276 | Length of every SMPTE text: 8, 11 or 14 characters as frames and subframes are there, which is what the composer's space tests assume |
| RtspText.AbsTextLength | baselibs/gen_data_structures/src/rtsp_range_utils.cpp:1278-1342 | Every absolute time without a fraction is 16 characters: year of four digits, T, time, Z |
| RtspText.StandardSmpte | baselibs/gen_data_structures/src/rtsp_range_utils.cpp:1209-1276 | The SMPTE texts have the form of section 3.5 of RFC 2326, under their three names |
| RtspText.StandardNpt | baselibs/gen_data_structures/src/rtsp_range_utils.cpp:1071-1207 | The NPT texts that of section 3.6 |
| RtspText.StandardClock | baselibs/gen_data_structures/src/rtsp_range_utils.cpp:1278-1342 | The absolute texts that of section 3.7 |
| RtspCompose.ComposeSmpte | baselibs/gen_data_structures/src/rtsp_range_utils.cpp:1209-1276 | Succeeds if and only if the text fits; then writes exactly that text; no byte outside the window changes in any case |
| RtspCompose.ComposeNpt | baselibs/gen_data_structures/src/rtsp_range_utils.cpp:1071-1207 | The same for NPT times; a seconds value with a fraction never composes |
| RtspCompose.ComposeAbs | baselibs/gen_data_structures/src/rtsp_range_utils.cpp:1278-1342 | The same for absolute times |
| RtspCompose.ComposeRange | baselibs/gen_data_structures/src/rtsp_range_utils.cpp:1344-1572 | The same for a whole range with its type word and line end: the output does not depend on the window, and a window too short is refused |
| RtspCompose.ComposeLine | baselibs/gen_data_structures/src/rtsp_range_utils.cpp:1574-1655 | compose_SDP_string and compose_RTSP_string: success if and only if tag and text fit a window of less than 2^31 bytes |
| RtspCompose.ComposeEstimated | baselibs/gen_data_structures/src/rtsp_range_utils.cpp:876-1067 | A buffer of the estimated size is always enough, for every composable range |
| BitStream.BitStreamParser.ReadBits | baselibs/gen_data_structures/src/bitstreamparser.cpp:54-122 | With its byte-at-a-time fast path: the big-endian value of the next n bits and an advance by n; leaves if and only if the stream is too short or an unaligned read ends flush with the last byte |
| BitStream.BitStreamParser.ReadRound | baselibs/gen_data_structures/src/bitstreamparser.cpp:65-119 | One turn of either path keeps the value read so far equal to the bits passed |
| BitStream.BitStreamParser.ReadUInt8 | baselibs/gen_data_structures/src/bitstreamparser.cpp:125-139 | Eight bits at any alignment |
| BitStream.BitStreamParser.ReadUInt16 | baselibs/gen_data_structures/src/bitstreamparser.cpp:142-149 | Sixteen bits at any alignment, leaving exactly when ReadBits(16) would |
| BitStream.BitStreamParser.ReadUInt32 | baselibs/gen_data_structures/src/bitstreamparser.cpp:152-161 | At any alignment the same value, position and leave condition as ReadBits(32) |
| BitStream.BitStreamParser.NextBits | baselibs/gen_data_structures/src/bitstreamparser.cpp:227-240 | Advances by any number of bits, but backward where the 32-bit sum wraps, and leaves if and only if that is not before the end |
| BitStream.BitStreamParser.NextBit | baselibs/gen_data_structures/src/bitstreamparser.h:74-89 | Advances by one bit and, unlike NextBits, may land on the end |
| BitStream.BitStreamParser.WriteBits | baselibs/gen_data_structures/src/bitstreamparser.cpp:164-186 | Always leaves, because its own source is read with ReadBits(1): exactly all bits but the last have been written, and nothing else |
| BitStream.BitStreamParser.WriteLoop | baselibs/gen_data_structures/src/bitstreamparser.cpp:172-185 | From any source position, count - 1 bits are copied in order before the leave |
| BitStream.BitStreamParser.WriteUInt8 | baselibs/gen_data_structures/src/bitstreamparser.cpp:189-204 | Succeeds if and only if aligned with a byte left; changes that byte only |
| BitStream.BitStreamParser.WriteUInt32 | baselibs/gen_data_structures/src/bitstreamparser.cpp:216-224 | Succeeds if and only if aligned with four bytes left; reading 32 bits back gives the value; no other byte changes |
| BitStream.BitStreamParser.WriteUInt16 | baselibs/gen_data_structures/src/bitstreamparser.cpp:207-213 | Succeeds if and only if aligned with two bytes left; reading 16 bits back gives the value; no other byte changes |
| BitStream.BitsAppend | baselibs/gen_data_structures/src/bitstreamparser.cpp:54-122 | Reading n bits and then m is reading n + m: the value is the first shifted by m with the second below it |
| BitStream.ChunkValue | baselibs/gen_data_structures/src/bitstreamparser.cpp:102-112 | Shift and mask of part of a byte is the big-endian value of those bits |
| BitStream.WriteAllSets | baselibs/gen_data_structures/src/bitstreamparser.cpp:164-186 | After copying bits, each bit of the stream is the source's inside the written run and the old one outside |
| BitStream.WriteAllReadsBack | baselibs/gen_data_structures/src/bitstreamparser.cpp:164-186 | What was copied reads back as the value it had in the source |
| CowString.LiveIffBound | baselibs/gen_data_structures/src/pv_string.cpp:37-78 | Whenever counts and bindings balance, the live reps are exactly those some live handle is bound to: no leak, no dangling handle |
| CowString.TakeCounts | baselibs/gen_data_structures/src/pv_string.cpp:55-78 | Rebinding a handle to a rep whose reference is already counted keeps every count equal to the number of handles; the former rep is freed exactly if that was its last |
| CowString.DestroyCounts | baselibs/gen_data_structures/src/pv_string.cpp:45-53 | The same for the end of a handle |
| CowString.BindCounts | baselibs/gen_data_structures/src/pv_string.cpp:37-43 | The same for a new handle |
| CowString.WriteIgnoresSharing | baselibs/gen_data_structures/src/pv_string.h:157-161 | The text after write(index, c) is the same for a shared and an unshared rep if and only if the write does not overwrite the terminator, with a character, in front of leftover text |
| CowString.WriteInside | baselibs/gen_data_structures/src/pv_string.h:157-161 | Inside the text one character is replaced, or the text cut at a NUL |
| CowString.SplicedValue | baselibs/gen_data_structures/src/pv_string.h:163-173 | The text after write(offset, length, ptr), shared or not: up to offset as before, then what fits of ptr; behind the end nothing visible changes |
| CowString.FillValue | baselibs/gen_data_structures/src/pv_string.h:96-104 | A rep built from a buffer shows the buffer's text, cut to its size, with nothing but NULs behind it |
| CowString.CatValue | baselibs/gen_data_structures/src/pv_string.cpp:80-97 | strcat into room that suffices gives the concatenation and keeps the terminator |
| CowString.StrcmpEqual | baselibs/gen_data_structures/src/pv_string.h:185-188 | Two handles compare equal exactly if they read the same, whatever lies behind the terminators |
| CowString.StrcmpReads | baselibs/gen_data_structures/src/pv_string.h:185-213 | Every comparison of two buffers is the comparison of what they read as |
| CowString.StrcmpOrder | baselibs/gen_data_structures/src/pv_string.h:190-213 | The comparison is antisymmetric and transitive |
| CowString.String.FromChars | baselibs/gen_data_structures/src/pv_string.cpp:130-133 | A new handle reads as the source and its rep counts one |
| CowString.String.Copy | baselibs/gen_data_structures/src/pv_string.cpp:37-43 | A copy shares the rep, counted once more; every value stays |
| CowString.String.Destroy | baselibs/gen_data_structures/src/pv_string.cpp:45-53 | The handle is gone; its rep is freed exactly if no other handle is bound to it |
| CowString.String.Assign | baselibs/gen_data_structures/src/pv_string.cpp:55-78 | Afterwards both handles share a rep, self-assignment and equal reps included; the value of every other handle stays |
| CowString.String.AssignChars | baselibs/gen_data_structures/src/pv_string.cpp:141-157 | In place if and only if the rep is not shared; this handle reads as the source, every other as before |
| CowString.String.Append | baselibs/gen_data_structures/src/pv_string.cpp:80-97 | This handle reads as its old text followed by the source, every other as before |
| CowString.String.AppendString | baselibs/gen_data_structures/src/pv_string.cpp:99-117 | The same with another handle, which may be this one, as the source |
| CowString.String.Own | baselibs/gen_data_structures/src/pv_string.h:111-128 | Afterwards the rep is this handle's alone; the buffer is the old one, or its copy if it was shared |
| CowString.String.Write | baselibs/gen_data_structures/src/pv_string.h:157-161 | One character changes in a private rep; every other handle's value stays |
| CowString.String.WriteChars | baselibs/gen_data_structures/src/pv_string.h:163-173 | A run of characters changes in a private rep; every other handle's value stays |
| CowString.String.Take | baselibs/gen_data_structures/src/pv_string.cpp:62-76 | The shared tail of all rebinding operations: the former rep loses a reference or is freed, and the balance holds again |
| ListRun.IterationIsSound | baselibs/gen_data_structures/src/linked_list.h:82-105 | Over any run of get_next, removals, moves and additions, the elements no change touched are yielded exactly once and in order: those yielded plus those still to come are those that were to come |
| ListRun.RemovalUnvisited | baselibs/gen_data_structures/src/linked_list.h:201-236 | A removal takes just the removed element from what is still to be yielded, whether or not it was the iterator's own node |
| ListRun.FrontUnvisited | baselibs/gen_data_structures/src/linked_list.h:342-382 | With the iterator on a node, moving to the front takes just the moved element from what is still to be yielded |
| ListRun.FrontUnvisitedFromStart | baselibs/gen_data_structures/src/linked_list.h:342-382 | With no iterator node the moved element will be yielded first |
| ListRun.EndUnvisited | baselibs/gen_data_structures/src/linked_list.h:304-339 | Moving to the end makes the element the last to be yielded, visited or not, except the tail itself when already visited |
| LinkedList.LinkedList.GetNext | baselibs/gen_data_structures/src/linked_list.h:90-105 | Steps the iterator and yields the first unvisited element, none at the end; NULL restarts at the head |
| LinkedList.LinkedList.GetFirst | baselibs/gen_data_structures/src/linked_list.h:82-88 | Puts the iterator on the head |
| LinkedList.LinkedList.RemoveElement | baselibs/gen_data_structures/src/linked_list.h:201-236 | Removes the first element equal to the argument, keeps links, head, tail, iterator and count one and the same acyclic sequence |
| LinkedList.LinkedList.RemoveElementAt | baselibs/gen_data_structures/src/linked_list.h:262-301 | The same by index; out of range changes nothing |
| LinkedList.LinkedList.MoveToEnd | baselibs/gen_data_structures/src/linked_list.h:304-339 | The first equal element becomes the last, iterator stepped back if it was on it; already last: nothing |
| LinkedList.LinkedList.MoveToFront | baselibs/gen_data_structures/src/linked_list.h:342-382 | The first equal element becomes the first, iterator stepped back if it was on it; already first: nothing |
| LinkedList.LinkedList.AddElement | baselibs/gen_data_structures/src/linked_list.h:149-163 | A new last element, on a fresh node |
| LinkedList.LinkedList.AddToFront | baselibs/gen_data_structures/src/linked_list.h:165-181 | A new first element, on a fresh node |
| LinkedList.LinkedList.GetIndex | baselibs/gen_data_structures/src/linked_list.h:239-258 | First index of an element, -1 if absent |
| LinkedList.LinkedList.GetElement | baselibs/gen_data_structures/src/linked_list.h:183-198 | The element at an index, nothing if out of range |
| LinkedList.LinkedList.CheckList | baselibs/gen_data_structures/src/linked_list.h:138-146 | Counting the nodes agrees with num_elements if and only if the field is right |
| HashTable.HashTable.AddElement | baselibs/gen_data_structures/src/hashtable.h:156-195 | Fails if and only if the key is present; otherwise the map gains the pair; num_elements is the size of the map |
| HashTable.HashTable.RemoveElement | baselibs/gen_data_structures/src/hashtable.h:200-234 | Succeeds if and only if the key is present; the map loses just that key; num_elements is its size |
| HashTable.HashTable.GetElement | baselibs/gen_data_structures/src/hashtable.h:238-274 | The value of the key, and a miss exactly if the key is not in the map, in spite of the early exit |
| HashTable.HashTable.GetElementAt | baselibs/gen_data_structures/src/hashtable.h:279-308 | The index-th of all entries |
| HashTable.HashTable.IsUnique | baselibs/gen_data_structures/src/hashtable.h:133-150 | True if and only if the key is not in the map |
| HashTable.HashTable.constructor | baselibs/gen_data_structures/src/hashtable.h:312-334 | For every size the call returns from: a valid, empty map with at least the size asked for, or for size zero no chains and a full mask |
| HashTable.EntriesAreContents | baselibs/gen_data_structures/src/hashtable.h:279-308 | The entries the indices go through are exactly the pairs of the map |
| HashTable.SizeIsCount | baselibs/gen_data_structures/src/hashtable.h:279-308 | There are as many entries as pairs, so each index is another pair |
| HashTable.Added | baselibs/gen_data_structures/src/hashtable.h:169-195 | Inserting into the key's own chain keeps the table placed and adds just that pair to the map |
| HashTable.Removed | baselibs/gen_data_structures/src/hashtable.h:209-234 | Deleting from the key's own chain keeps the table placed and takes just that key from the map |
| HashTable.WrongHashHides | baselibs/gen_data_structures/src/hashtable.h:169-195 | If the caller's hash picks another chain than compute_hash, the new entry is never found, and the table is no longer placed |
| Masks.MaskIsModulo | baselibs/gen_data_structures/src/hashtable.h:137 | Masking with size - 1 is the remainder by size, for every power of two |
| Masks.PowerOfTwoTest | baselibs/gen_data_structures/src/hashtable.h:317 | size & (size - 1) is zero exactly for powers of two |
| Masks.ChooseSize | baselibs/gen_data_structures/src/hashtable.h:312-328 | For every 32-bit size: none if and only if the call never returns; for a positive one the least power of two not below it; for zero no chains and a full mask; for the least size 2^31 |
| Masks.NeverReturnsExactly | baselibs/gen_data_structures/src/hashtable.h:317-321 | The call never returns, entering the loop with a size no number of shifts brings to zero, exactly for the negative sizes other than the least |
| Masks.NegativeTest | baselibs/gen_data_structures/src/hashtable.h:317 | A negative size, taken as unsigned, passes the power-of-two test only if it is the least |
| Masks.NegativeNeverShiftsOut | baselibs/gen_data_structures/src/hashtable.h:321 | The loop that shifts a negative size right never reaches zero |
| Chains.Walk | baselibs/gen_data_structures/src/hashtable.h:250-274 | The walk with early exit finds in a sorted chain what a full search finds |
| Chains.Insert | baselibs/gen_data_structures/src/sorted_list.h:163-208 | On a sorted chain the insertion loop puts the entry where the specification does |
| Chains.Delete | baselibs/gen_data_structures/src/sorted_list.h:247-288 | The removal loop deletes exactly the entry looked for |
| AudioCapture.Ownership | android/author/android_audio_input.cpp:1226-1376 | In every interleaving of the media I/O and capture threads, starts that fail included but not a start queued behind one that has not run: each of the four pool chunks is in exactly one of pool, request queue, thread, response queue, peer and lost; at most one is ever lost; the peer has received a prefix of what was captured, in order; timestamps are contiguous and lag the frames captured by less than a millisecond a buffer |
| AudioCapture.StepKeepsPlaces | android/author/android_audio_input.cpp:1110-1156 | Every step of either thread keeps the number of places a chunk is in |
| AudioCapture.StepKeepsOrder | android/author/android_audio_input.cpp:1378-1430 | Every step keeps captured = delivered, then dropped by a reset, then waiting |
| AudioCapture.StepKeepsTime | android/author/android_audio_input.cpp:1352-1362 | Every step keeps each timestamp the sum of the durations before it, and the lag of the clock within its bound |
| AudioCapture.ClockFollowsBytes | android/author/android_audio_input.cpp:1352-1362 | Over every run: one captured buffer for each successful read, in order and of its size; each buffer's duration, and the clock, is behind the bytes read by less than a frame and a millisecond a buffer |
| AudioCapture.FramesMean | android/author/android_audio_input.cpp:1352 | The frames of a buffer are as many whole frames of 2 bytes a channel as its bytes hold |
| AudioCapture.DurationMeans | android/author/android_audio_input.cpp:1353-1354 | The duration is the frames' time in whole milliseconds, rounded down |
| AudioCapture.StepKeepsOneCapturer | android/author/android_audio_input.cpp:960-1037 | However many starts there are, working or failing, as long as none is queued behind one that has not run: at most one thread is past its exit test, and while the flag is clear at most one is live |
| AudioCapture.ExitIsFinal | android/author/android_audio_input.cpp:1030-1037 | Over the same runs: once the exit flag is set, at most one more buffer is ever captured, whatever is started later |
| AudioCapture.StopIsFinal | android/author/android_audio_input.cpp:1089-1108 | A stop can be asked for from capture and from a pause, and nothing is delivered in any run after it |
| AudioCapture.PeerIsServed | android/author/android_audio_input.cpp:1378-1430 | While capturing, a peer that takes a buffer gets the oldest one, remembered under the id it gave; one that does not changes nothing |
| AudioCapture.RequestsInOrder | android/author/android_audio_input.cpp:1269-1280 | Over every run: chunks are filled in the order they were asked for, up to those a reset returned to the pool |
| AudioCapture.LastFreedFirst | android/author/android_audio_input.cpp:1120-1135 | The chunk given back last is the next to be asked for |
| AudioCapture.OneSignalEach | android/author/android_audio_input.cpp:1372-1375 | Over every run: each thread that has ended gave one signal, each wait that has ended took one, and the rest are left over |
| AudioCapture.WaitsIfStarted | android/author/android_audio_input.cpp:1048-1054 | Over every run: a stop or reset waits if and only if the latest start made a thread, working or not, and no wait has ended since |
| AudioCapture.ResetWaitsExactly | android/author/android_audio_input.cpp:1039-1108 | In every run, for a stop and a reset alike: whatever follows up to the end of the call, it ends with nobody capturing, if and only if nobody captures when it is made, or a thread counts as started, no signal is left over and every other thread has ended |
| AudioCapture.WaitsExactly | android/author/android_audio_input.cpp:1049-1054 | The same from the wait itself |
| AudioCapture.ResetDoesNotWait | android/author/android_audio_input.cpp:1049-1054 | A run in which a reset goes on while a thread still reads into its chunk, let through by the signal of a failed start |
| AudioCapture.RestartEndsWait | android/author/android_audio_input.cpp:1049-1054 | Another in which no start failed: a start after a pause made a thread that ended at once |
| AudioCapture.AndroidAudioInput.DoStop | android/author/android_audio_input.cpp:1089-1108 | Up to the wait takes the step of the machine |
| AudioCapture.AndroidAudioInput.DoReset | android/author/android_audio_input.cpp:1039-1076 | Up to the wait, or without one to the end, takes the step of the machine |
| AudioCapture.AndroidAudioInput.DoStart | android/author/android_audio_input.cpp:960-1019 | Takes the step of the machine: a thread that works, one without a recorder, or none |
| AudioCapture.AndroidAudioInput.DoPause | android/author/android_audio_input.cpp:1030-1037 | Takes the step of the machine |
| AudioCapture.AndroidAudioInput.DoRead | android/author/android_audio_input.cpp:1110-1156 | Takes the step of the machine: one chunk from pool to request queue, or nothing |
| AudioCapture.AndroidAudioInput.Take | android/author/android_audio_input.cpp:1269-1280 | The capture thread's locked section takes its step |
| AudioCapture.AndroidAudioInput.AfterRead | android/author/android_audio_input.cpp:1282-1362 | After reading: the response with its timestamp and duration, or the loss of the chunk and the end of the thread |
| AudioCapture.AndroidAudioInput.SendMicData | android/author/android_audio_input.cpp:1378-1430 | The oldest response goes to the peer if it takes it, else stays first |
| AudioCapture.AndroidAudioInput.WriteComplete | android/author/android_audio_input.cpp:396-446 | The sent chunk with the given id goes back to the pool; a failed status returns nothing |
| AudioCapture.AndroidAudioInput.ClearQueues | android/author/android_audio_input.cpp:1039-1076 | A reset returns both queues' chunks to the pool |
| AudioPlayback.Conservation | android/android_audio_output.cpp:344-597 | In every interleaving each accepted id is in exactly one place, and each answer out of turn shows up once more |
| AudioPlayback.ExactlyOnce | android/android_audio_output.cpp:344-597 | Every id is in exactly one place if accepted and in none if not, if and only if no step of the run is an end-of-stream branch taken with an empty queue, buffers asked back and the exit flag clear |
| AudioPlayback.RepeatsExactly | android/android_audio_output.cpp:488-528 | That step, and no other of either thread, answers out of turn, and answers the id the thread last had |
| AudioPlayback.OnlyZeroUnknown | android/android_audio_output.cpp:398 | An id that was never accepted is answered only if it is 0, which the thread starts with |
| AudioPlayback.ReturnRepeats | android/android_audio_output.cpp:164-187 | Once buffers are asked back, one answer out of turn is sent before the thread hands over if it comes to its queue with nothing in hand, and none otherwise |
| AudioPlayback.LooksAndRepeats | android/android_audio_output.cpp:164-187 | So asking them back from a thread with nothing in hand that is not yet at the return test always sends one |
| AudioPlayback.NeverLost | android/android_audio_output.cpp:344-597 | While the exit flag is clear and no response has been dropped, an accepted write is queued, held, waiting as a response or completed |
| AudioPlayback.Accounting | android/android_audio_output.cpp:306-322 | iDataQueued is the sum of the queued lengths and never underflows; the sink has received, in order, the first bytes of each buffer, all of them for one that finished |
| AudioPlayback.PlayedInOrder | android/android_audio_output.cpp:306-484 | In every interleaving, whatever is cancelled, discarded or asked back: the buffers the thread has taken, and behind them those still queued, are in the order they were written, each with the id, length and timestamp it was written with; those played, with the one in hand, are the ones taken, so the sink gets the peer's bytes in order |
| AudioPlayback.DeliveredInOrder | android/android_audio_mio.cpp:168-192 | Over runs, from any state: the answers in the response queue reach the peer in their order, before any later one |
| AudioPlayback.CompletedGrows | android/android_audio_output.cpp:143-187 | Over runs: nothing the peer was told is taken back or told in front of something else |
| AudioPlayback.NextIsPlayed | android/android_audio_output.cpp:407-585 | With the clock running and nothing asked of the thread, one turn of the loop hands the sink the next bytes of the oldest buffer, as many as its own buffer has room for, and finishes that buffer when they are its last |
| AudioPlayback.SilentUnlessTicking | android/android_audio_output.cpp:409-466 | Over runs: from a sink that stands still nothing is played as long as the thread never finds the clock running |
| AudioPlayback.FlushGivesUp | android/android_audio_output.cpp:416-440 | Once the clock runs again after a discard, the buffer in hand is answered unplayed and the sink's buffer is begun afresh |
| AudioPlayback.FlushWaits | android/android_audio_output.cpp:226-227 | A discard asks for that flush, and no other step takes the request back |
| AudioPlayback.HandsOverAll | android/android_audio_output.cpp:533-541 | However the thread gets there, it has nothing in hand once it has handed its buffers back |
| AudioPlayback.AlwaysFits | android/android_audio_mio.cpp:644-662 | Over runs the response queue never outgrows the room of its vector |
| AudioPlayback.GrowDoubles | oscl/oscl/osclbase/src/oscl_vector.cpp:85-95 | After any number of pushes the room is the least doubling of what it was that has room for them |
| AudioPlayback.NoStraddle | android/android_audio_output.cpp:552-585 | Between flushes no write straddles a multiple of the sink's buffer size |
| AudioPlayback.OverflowNeedsCrowd | android/android_audio_mio.cpp:644-662 | A step drops a response only if more commands are outstanding than the queue has room for, or out of turn |
| AudioPlayback.NothingDroppedExactly | android/android_audio_mio.cpp:644-662 | Over runs: no response is dropped if and only if no answering step of the thread finds the response queue full |
| AudioPlayback.NothingLost | android/android_audio_mio.cpp:644-662 | Over runs: with no more commands outstanding than there is room for and no answer out of turn, no response is dropped and no accepted write lost while the exit flag is clear |
| AudioPlayback.AnsweredTwice | android/android_audio_output.cpp:488-528 | A run in which one command is answered twice |
| AudioPlayback.AnsweredUnasked | android/android_audio_output.cpp:488-528 | A run in which id 0 is answered though nothing was ever written |
| AudioPlayback.DiscardSplits | android/android_audio_output.cpp:189-237 | Discarding splits the queue: every request is kept or answered, none both |
| AudioPlayback.KeptMeans | android/android_audio_output.cpp:189-237 | Kept are exactly the requests at or after the timestamp |
| AudioPlayback.KeptAppend | android/android_audio_output.cpp:189-237 | Discarding in a queue is discarding in its parts, so the kept requests stay in their order |
| AudioPlayback.AndroidAudioOutput.WriteAudioBuffer | android/android_audio_output.cpp:306-322 | Takes the step of the machine: the request, with its id, length and timestamp, behind the others, counted in iDataQueued |
| AudioPlayback.AndroidAudioOutput.CancelCommand | android/android_audio_output.cpp:143-162 | Removes the first request with the id, if any, and answers it |
| AudioPlayback.AndroidAudioOutput.ReturnAllBuffers | android/android_audio_output.cpp:164-187 | Answers every queued request in order and asks the thread for its own |
| AudioPlayback.AndroidAudioOutput.DiscardData | android/android_audio_output.cpp:189-237 | The in-place loop leaves exactly the requests the specification keeps and queues a response for each of the others; iDataQueued drops by their lengths |
| AudioPlayback.AndroidAudioOutput.ProcessWriteResponseQueue | android/android_audio_mio.cpp:168-192 | Completes every queued response, in order |
| AudioPlayback.AndroidAudioOutput.SendResponse | android/android_audio_mio.cpp:644-662 | Queues the response, or drops it when the queue is full |
| AudioPlayback.AndroidAudioOutput.LoopPart | android/android_audio_output.cpp:407-586 | Each part of the audio thread's loop takes the step of the machine |
| AudioPlayback.AndroidAudioOutput.TestClock | android/android_audio_output.cpp:409-466 | The clock test: a pending flush, which answers the buffer in hand, then the sink started or paused |
| AudioPlayback.AndroidAudioOutput.TestEndOfStream | android/android_audio_output.cpp:486-530 | The end-of-stream branch, its answer out of turn included |
| AudioPlayback.AndroidAudioOutput.TestReturn | android/android_audio_output.cpp:533-541 | The buffer in hand is answered when buffers are asked back |
| AudioPlayback.AndroidAudioOutput.TestExit | android/android_audio_output.cpp:543-549 | The exit answers the buffer in hand |
| AudioPlayback.AndroidAudioOutput.Output | android/android_audio_output.cpp:551-585 | One write to the sink, never past the end of its buffer, and the answer when the data is done |
| AudioPlayback.AndroidAudioOutput.NextBuffer | android/android_audio_output.cpp:468-484 | The thread takes the oldest request and its length off iDataQueued |
| AuthorDriver.Serves | android/author/authordriver.cpp:135-290 | In every interleaving of clients, author thread and engine: commands leave the queue in the order they came; each is in exactly one place; the active object is ready whenever a command waits; the scheduler refuses no call; the thread never finds the queue empty |
| AuthorDriver.AllAnswered | android/author/authordriver.cpp:1348-1493 | At rest, with the engine having answered what it accepted, every command but a quit has been completed exactly once |
| AuthorDriver.OwnStatus | android/author/authordriver.cpp:1141-1146 | A client that has the driver to itself is told, for each accepted command, what the handler or the engine decided on that command: OK exactly for success, else the engine's own code or UNKNOWN_ERROR; a quit is told OK, a command after the end of the thread NO_INIT |
| AuthorDriver.DoneAsRuled | android/author/authordriver.cpp:1478-1490 | Over every run, for any number of clients: the completions are the decisions of handlers and engine, in order, command by command, each with the status that was decided |
| AuthorDriver.TellsLatest | android/author/authordriver.cpp:187-197 | However many clients there are, a reply carries the status of the latest completion that signalled, or OK for a quit or once the thread has ended |
| AuthorDriver.EveryCallReplied | android/author/authordriver.cpp:159-197 | Over runs, for any number of clients: every call, also one made after the end of the thread, has been replied to once or has not returned yet |
| AuthorDriver.OthersStatus | android/author/authordriver.cpp:187-197 | With any two or more clients there is a run in which a failed command is reported as successful |
| AuthorDriver.TruthfulExactly | android/author/authordriver.cpp:187-197 | In all runs every reply is its own command's status if and only if there is at most one client |
| AuthorDriver.ComesBack | android/author/authordriver.cpp:187-197 | In every run of a single client, a waiting call can still return if and only if its command signals or is a quit, although the wait is entered even with a completion function that does not signal |
| AuthorDriver.StaysWaiting | android/author/authordriver.cpp:187-197 | One that does neither waits in every continuation |
| AuthorDriver.StepKeepsWakeUp | oscl/oscl/osclproc/src/oscl_scheduler_ao.cpp:288-303 | Every step keeps the request pending with an empty queue, ready with commands queued, idle only between pick and dequeue |
| AuthorDriver.StepKeepsFifo | android/author/authordriver.cpp:135-197 | Every step keeps arrival order equal to the commands taken, then those queued |
| AuthorDriver.StepKeepsSignals | android/author/authordriver.cpp:1120-1121 | Every step keeps signals paired: semaphore count plus waits ended is synchronous completions plus the end of the thread |
| AuthorDriver.AuthorDriver.EnqueueCommand | android/author/authordriver.cpp:159-186 | Up to the wait takes the step of the machine, or NO_INIT once the engine is gone |
| AuthorDriver.AuthorDriver.DequeueCommand | android/author/authordriver.cpp:135-157 | Takes the oldest command and rearms the request: ready if more are queued, pending if not |
| AuthorDriver.AuthorDriver.Run | android/author/authordriver.cpp:210-218 | Takes the step of the machine up to the handler |
| AuthorDriver.AuthorDriver.HandleCommand | android/author/authordriver.cpp:202-304 | A handler finishes the command, fails it, or leaves it to the engine; a quit ends the loop |
| AuthorDriver.AuthorDriver.CommandCompleted | android/author/authordriver.cpp:1348-1493 | Completes one command of the engine with the engine's code, its success translated to OK |
| AuthorDriver.AuthorDriver.EndThread | android/author/authordriver.cpp:1115-1121 | The end of the thread signals once with status OK |
| CameraFrames.Conservation | android/author/android_camera_input.cpp:1370-1468 | In every interleaving a frame the camera handed over is in exactly one of queued, held, sent, released and stranded; it is released at most once; mFrameRefCount is the length of iSentMediaData |
| CameraFrames.AllBack | android/author/android_camera_input.cpp:465-495 | With queue and peer empty, every frame has been released once or was stranded by a heap mismatch |
| CameraFrames.SentInOrder | android/author/android_camera_input.cpp:465-495 | From any state: the peer's frames are given back in the order it took them |
| CameraFrames.MachineStamps | android/author/android_camera_input.cpp:1417-1428 | The stamps a recording queued are those of its capture times in order, as long as none of its frames was stranded |
| CameraFrames.FramesCarryStamps | android/author/android_camera_input.cpp:1449-1462 | Over every run: the frames that left the queue, then those in it and the one held, are in the order they were stamped, and all of those admitted since the last stop carry their numbers from 0 and, in their timestamps, the stamps of the recording; of the others at most one is still there |
| CameraFrames.QueuedStampsDiffer | android/author/android_camera_input.cpp:1417-1452 | Then frames that follow each other in the queue carry different timestamps |
| CameraFrames.LineIncreases | android/author/android_camera_input.cpp:1417-1452 | And growing ones when the stamps grow |
| CameraFrames.QueuedStampsIncrease | android/author/android_camera_input.cpp:1417-1428 | Then the stamps grow exactly when each capture time is at least the stamp before it; in terms of the times alone, exactly when from the first stamp on they never go back and take a step of two between any two repeats |
| CameraFrames.StampsNeverRepeat | android/author/android_camera_input.cpp:1417-1447 | In every run, stranding or not: neighbouring stamps differ all along if and only if no frame is queued whose time is the last queued stamp with the clock of stamps elsewhere, or is where that clock is with the last queued stamp just ahead |
| CameraFrames.CoincidesExactly | android/author/android_camera_input.cpp:1417-1447 | Just such a step makes two neighbours equal, and only after a frame was stranded between them |
| CameraFrames.StrandedStampRepeats | android/author/android_camera_input.cpp:1438-1447 | A run with the stamps 0, 5, 5 |
| CameraFrames.StampsFallBack | android/author/android_camera_input.cpp:1417-1428 | A run, none stranded, in which three frames at one time are stamped 5, 6, 5 |
| CameraFrames.OneHeap | android/author/android_camera_input.cpp:1438-1447 | In every run: the frames waiting and with the peer lie on the one heap remembered, all along, if and only if the peer never gives its last frame back while others wait, which makes the driver forget the heap |
| CameraFrames.ForgetsExactly | android/author/android_camera_input.cpp:480-492 | Just that step breaks it |
| CameraFrames.TwoHeaps | android/author/android_camera_input.cpp:1438-1447 | A run with frames of two heaps queued side by side, none of them stranded |
| CameraFrames.RefusedWhileBusy | android/author/android_camera_input.cpp:1380-1393 | Over runs: the write state is busy exactly from a busy answer of the peer to the next start, stop or clearing, and a frame that comes then goes straight back to the camera |
| CameraFrames.Origin | android/author/android_camera_input.cpp:1399-1414 | Over runs: times are counted from the first time noted since the last start, by the author clock or a frame, that is not 0 |
| CameraFrames.DrainIsWrites | android/author/android_camera_input.cpp:905-951 | The write loop is a sequence of single writes, each a step of the machine |
| CameraFrames.AndroidCameraInput.PostWriteAsync | android/author/android_camera_input.cpp:1370-1457 | Drops and releases, strands, or stamps and holds the frame, as the machine does |
| CameraFrames.AndroidCameraInput.QueueHeld | android/author/android_camera_input.cpp:1459-1462 | Takes the step of the machine: the held frame is queued last |
| CameraFrames.AndroidCameraInput.Run | android/author/android_camera_input.cpp:899-951 | The loop writes frames in order until the queue is empty or a write fails, and releases the one that failed |
| CameraFrames.AndroidCameraInput.WriteComplete | android/author/android_camera_input.cpp:465-495 | Releases the oldest sent frame and forgets the heap with the last one |
| CameraFrames.AndroidCameraInput.ReleaseQueuedFrames | android/author/android_camera_input.cpp:83-101 | Releases every queued frame, in order |
| CameraFrames.AndroidCameraInput.DoStop | android/author/android_camera_input.cpp:1229-1245 | Takes the step of the machine |
| UriEscape.PercentsIdempotent | baselibs/gen_data_structures/src/pv_string_uri.cpp:32-112 | The percent pass done twice is the percent pass done once |
| UriEscape.SettledIsFixed | baselibs/gen_data_structures/src/pv_string_uri.cpp:54-84 | It changes nothing exactly if every percent sign starts one of the twenty listed codes |
| UriEscape.ListedExactly | baselibs/gen_data_structures/src/pv_string_uri.cpp:54-75 | The listed codes are those of the reserved characters, of the blank and of the percent sign (RFC 3986, section 2.2), in upper-case digits |
| UriEscape.PercentsLength | baselibs/gen_data_structures/src/pv_string_uri.cpp:49-97 | It grows the text by two for each percent sign it escapes |
| UriEscape.PercentsDecode | baselibs/gen_data_structures/src/pv_string_uri.cpp:49-97 | It preserves decoding of the listed codes (RFC 3986, section 2.4) |
| UriEscape.IllegalsIdempotent | baselibs/gen_data_structures/src/pv_string_uri.cpp:115-183 | The illegal-character pass done twice is the pass done once |
| UriEscape.IllegalsLegal | baselibs/gen_data_structures/src/pv_string_uri.cpp:138-163 | Its output holds legal characters only |
| UriEscape.LegalIsFixed | baselibs/gen_data_structures/src/pv_string_uri.cpp:138-163 | It changes nothing exactly if every character is legal |
| UriEscape.LegalExactly | baselibs/gen_data_structures/src/pv_string_uri.cpp:138-144 | Legal are the reserved and unreserved characters and the percent sign, except the tilde (RFC 3986, sections 2.2 and 2.3) |
| UriEscape.IllegalsLength | baselibs/gen_data_structures/src/pv_string_uri.cpp:138-167 | It grows the text by two for each illegal character |
| UriEscape.IllegalsDecode | baselibs/gen_data_structures/src/pv_string_uri.cpp:138-167 | It preserves lenient percent-decoding of the whole text (RFC 3986, section 2.1) |
| UriEscape.BothIdempotent | baselibs/gen_data_structures/src/pv_string_uri.cpp:32-183 | One pass after the other, done again, changes nothing exactly if spaces were the only illegal characters |
| UriEscape.PersentageToEscapedEncoding | baselibs/gen_data_structures/src/pv_string_uri.cpp:32-112 | In place the buffer holds the pass's result, terminated, and the reported length is its length; false exactly for an empty URL |
| UriEscape.IllegalCharactersToEscapedEncoding | baselibs/gen_data_structures/src/pv_string_uri.cpp:115-183 | The same for the illegal-character pass |
| UriEscape.DecimalToHexConverter | baselibs/gen_data_structures/src/pv_string_uri.cpp:187-212 | A blank and the two upper-case hex digits of the byte, terminated |
| UriEscape.CopyBack | baselibs/gen_data_structures/src/pv_string_uri.cpp:99-107 | Copies the result back over the cleared head of the URL and leaves an empty result alone; says what every byte of the buffer is |
| Latin1.RoundTrip | android/mediascanner.cpp:1036-1047 | Untangling inverts the Latin-1 to UTF-8 encoding on every byte string |
| Latin1.EncodeUntangle | android/mediascanner.cpp:1036-1047 | Encoding what was untangled gives the text back exactly if it was UTF-8 of characters up to U+00FF |
| Latin1.UntangleInPlace | android/mediascanner.cpp:1036-1047 | The loop writes the untangled text over its own input without reaching what is still to be read, terminated; bytes behind stay |
| Latin1.EncodeInto | android/mediascanner.cpp:163-175 | The encoding loop writes the encoded text into twice the room, terminated |
| Latin1.PossibleEncodings | android/mediascanner.cpp:972-997 | On encoded text, the encodings that have every two-byte character of the original bytes, when no lone lead byte ends them |
| Latin1.PossibleExactly | android/mediascanner.cpp:978-994 | An encoding is among them exactly if its table has every two-byte character, first byte above |
| Latin1.CharMatchesEncoding | android/autodetect.cpp:849-866 | Binary search finds a character exactly if some range of a sorted table without overlaps holds it |
| Latin1.FindPossibleEncodings | android/autodetect.cpp:868-885 | The encodings whose table has the character; all of them below 256 |
| BufFrag.ForwardExact | baselibs/gen_data_structures/src/buf_frag_group.cpp:57-94 | A forward seek moves by exactly delta, or reports the boundary if and only if that is beyond the last byte |
| BufFrag.ForwardComposes | baselibs/gen_data_structures/src/buf_frag_group.cpp:57-94 | Seeking a and then b is seeking a + b, unless the first reaches the boundary |
| BufFrag.BackwardExactly | baselibs/gen_data_structures/src/buf_frag_group.cpp:96-134 | A backward seek ends at its target, or reports the start for a target in front of it, exactly if it stays in its fragment, or that is empty and the target behind the first byte, or the target is in front of the group by at least its length |
| BufFrag.BackwardOff | baselibs/gen_data_structures/src/buf_frag_group.cpp:108-133 | Otherwise it is off by the length of the fragment it left |
| BufFrag.ThereAndBack | baselibs/gen_data_structures/src/buf_frag_group.cpp:57-134 | Forward and back again returns exactly when no boundary between fragments was crossed |
| BufFrag.BackwardExample | baselibs/gen_data_structures/src/buf_frag_group.cpp:108-133 | Two fragments of ten bytes, five back from offset 2 of the second: offset 7 of the second |
| BufFrag.SeekBufFragGroup | baselibs/gen_data_structures/src/buf_frag_group.cpp:29-135 | Index, offset, pointer and boundary flag of every outcome, the errors included; the pointer is fragment start plus offset except on the backward path across a fragment, where it is short by the fragment's length |
| VolumeRamp.RampVolume | android/author/android_audio_input.cpp:1164-1199 | On mono data every sample is scaled by the gain of its four-frame step, up to the ramp's end; the rest of the buffer stays |
| VolumeRamp.ScaledMeans | android/author/android_audio_input.cpp:1188 | A sample times its gain of m in 16384, rounded down |
| VolumeRamp.ScaledBounds | android/author/android_audio_input.cpp:1188 | Scaling keeps the sign, never amplifies, and its product fits 32 bits |
| VolumeRamp.GainGrows | android/author/android_audio_input.cpp:1181-1198 | The gain never falls and stays below one while the ramp lasts |
| VolumeRamp.GainFits | android/author/android_audio_input.cpp:1182 | The shifted frame number fits 32 bits for ramps up to 131071 frames |
| VolumeRamp.SplitExactly | android/author/android_audio_input.cpp:1164-1199 | Ramping in two calls equals ramping in one, for every recording, if and only if the gain does not step where they meet |
| VolumeRamp.SplitAtFours | android/author/android_audio_input.cpp:1192-1198 | So it does at every fourth frame |
| VolumeRamp.SplitElsewhere | android/author/android_audio_input.cpp:1192-1198 | And not at frame 2 of 8 |
| BoolArray.BoolArray.SetRange | baselibs/gen_data_structures/src/bool_array.h:55-132 | Every bit of the array after the call: the range is set, together with the bits before it in its word if it lies in one word; all other bits stay; refused exactly for an empty or out-of-range range |
| BoolArray.RangeExactly | baselibs/gen_data_structures/src/bool_array.h:87-100 | The bits touched are those asked for exactly if the range starts a word or goes on into another |
| BoolArray.BoolArray.SetSize | baselibs/gen_data_structures/src/bool_array.h:44-52 | The test looks at the present size, so any new size is taken once that is in range |
| BoolArray.BoolArray.SetValue | baselibs/gen_data_structures/src/bool_array.h:134-156 | One bit changes |
| BoolArray.BoolArray.GetValue | baselibs/gen_data_structures/src/bool_array.h:159-171 | The bit, false out of range |

## Left out

- RtspRoundTrip.RoundTrip: fractions of a second are not modelled, because the code turns them into floating point; a time with one parses as `Fractional` here, which equals no range.
- RtspRoundTrip.RoundTripBare: excludes a colon or a point behind the length, since the time parsers test the character just past it.
- RtspRoundTrip.Reads: the same, behind the stop time.
- RtspRoundTrip.NptReads: the fraction of seconds and of hours:minutes:seconds is not modelled.
- RtspRoundTrip.AbsReads: the fraction of an absolute time is not modelled.
- RtspText.EstimateSuffices: holds for ranges without fractions.
- RtspText.NptFitsEstimate: holds for times without a fraction.
- RtspCompose.ComposeNpt: hours:minutes:seconds with a fraction is not composed here.
- RtspCompose.ComposeAbs: the fraction, which the code prints into the wrong buffer, is not composed here.
- RtspCompose.ComposeRange: its signed comparisons are modelled for windows below 2^31, which both its callers enforce.
- RtspParse: the playlist form of a range has no composer and answers `Fractional`; the straight-line bodies of the three time parsers and of the range parser are functions, their loops are methods.
- BitStream.BitStreamParser.WriteBits: writing past the end of the stream, which the code does not test, is excluded.
- BitStream.BitStreamParser.WriteUInt8: so it is for an unaligned write with fewer than eight bits left.
- BitStream.BitStreamParser.WriteUInt16: the same.
- BitStream.BitStreamParser.WriteUInt32: the same.
- CowString: the mutexes and the allocation of character arrays are not modelled; a buffer is a sequence, reassigned. A `char*` argument that points into the string's own buffer is excluded. `hash` and `operator[]` are left out as easy. `String(const char*, int)` differs from the modelled constructor only in its size.
- CowString.String.Write: an index equal to the size, which overwrites the last terminator and leaves no string, is excluded.
- CowString.String.WriteChars: an offset beyond the size, for which the source's unsigned difference wraps, is excluded.
- LinkedList: the destructor and `dequeue_element`, which is two modelled calls, are left out; equality of elements is taken to be equality.
- Chains.Insert: a chain is a sequence here, so the links of `SortedList` are not modelled; they are those of the linked list, which is modelled with its nodes.
- HashTable.HashTable.AddElement: the overloads that take the hash are modelled as called by the others; `HashTable.WrongHashHides` says what happens otherwise.
- HashTable.HashTable.constructor: excludes the sizes it never returns from; `Masks.NeverReturnsExactly` says which.
- AudioCapture.Ownership: waiting on semaphores is not modelled, any thread may proceed when it could; a second initialisation, which makes a new pool while chunks of the old one are out, a start queued behind one that has not run, which the code accepts and which gives two live threads, wrap-around of the 32-bit timestamps and the events of the peer are left out.
- AudioPlayback.OverflowNeedsCrowd: one direction, for one step; `AudioPlayback.NothingDroppedExactly` is exact, over runs.
- AudioPlayback.NeverLost: holds while no response has been dropped; `AudioPlayback.NothingDroppedExactly` says when none is. Negative results of the sink, the clock arithmetic of `UpdateClock` and the sleep before the end-of-stream answer are left out.
- AuthorDriver.OwnStatus: the deletion of the semaphore by the client that quits, while others may wait, is not modelled.
- AuthorDriver.AuthorDriver.HandleCommand: what the handlers do to the engine's settings is reduced to the three ways a command can go.
- AuthorDriver.AuthorDriver.CommandCompleted: so are the settings it makes before it completes the command; an answer that is still pending, on which the code stops the process, is excluded.
- CameraFrames.Conservation: the comparison with `mHeap`, which the code makes without a lock, is one step; a null frame is refused before anything else and is left out, as are the 32-bit wrap-around of counters, the division of a frame's time to milliseconds, and the time the audio clock supplies beyond being a number.
- UriEscape.PersentageToEscapedEncoding: requires the result to fit the temporary buffer of 4000 bytes and the URL's own, neither of which the code checks.
- UriEscape.IllegalCharactersToEscapedEncoding: the same.
- UriEscape.CopyBack: requires a URL buffer of at least the size of a pointer, which the code clears.
- Latin1.UntangleInPlace: requires that no lead byte stands last, since the code would read past the terminator; the conversion of the untangled bytes is not part of this model.
- Latin1.PossibleEncodings: requires that no lone lead byte ends the native text, since the code would read past the terminator.
- Latin1.CharMatchesEncoding: the range tables themselves are parameters, sorted and without overlaps, which they are.
- BufFrag.SeekBufFragGroup: 32-bit overflow of lengths and offsets is left out, and offsets are not negative.
- VolumeRamp.RampVolume: the stereo branch, which takes the number of samples for the number of frames, and ramps longer than 131071 frames, for which the shift overflows, are left out.
- BoolArray.BoolArray.SetRange: requires that the present size is within the array, which `set_size` does not ensure.
- BoolArray.BoolArray.SetValue: the same.
- BoolArray.BoolArray.GetValue: the same.
- The player driver, the metadata driver, surface output, the engine, file formats and the operating system are not part of this model.
