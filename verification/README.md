# Model of Chromium base

This project models the parts of `base/` whose correctness depends on many steps taken
together, and proves what each of them is for. `dafny verify dfyconfig.toml` checks it all.

| files | what they model |
|---|---|
| `Md5Spec`, `Md5Answer`, `Md5Transform`, `Md5` | the streaming MD5 of `base/md5.cc` against RFC 1321, on machines of either byte order |
| `Sha1Spec`, `Sha1Answer`, `Sha1` | the streaming SHA-1 of `base/sha1_portable.cc` against FIPS 180-3, on a little-endian machine |
| `Bits`, `PickleFormat`, `Pickle`, `PickleIterator` | the growable write buffer and the reader of `base/pickle.cc`, with `base/bits.h` |
| `Strings`, `ArgvQuoting`, `ArgvRoundTrip`, `CommandLine`, `ArgvParsing`, `ArgvFixpoint` | printing and parsing of `base/command_line.cc`, with the splitting of `base/strings/string_split.cc` |
| `EnvironmentSpec`, `Environment` | both forms of `AlterEnvironment` in `base/environment.cc` |
| `ObserverListSpec`, `ObserverPasses`, `ObserverScripts`, `ObserverList` | `base/observer_list.h` under callbacks that re-enter it or destroy it |
| `ObserverListThreadSafe`, `ObserverListThreadSafePasses` | any interleaving of threads on `base/observer_list_threadsafe.h` |
| `CallbackListSpec`, `CallbackListPasses`, `CallbackScripts`, `CallbackList` | `base/callback_list.h` under callbacks that re-enter it |
| `IdMapSpec`, `IdMap` | `base/id_map.h` with overlapping and copied iterators |
| `LazyInstance` | any interleaving of threads on `base/lazy_instance.h` |
| `PathService` | the cache of `base/path_service.cc` against a resolver without one |
| `RunLoop` | nested loops and deferred quits of `base/run_loop.cc` |
| `RandUtil` | rejection sampling of `base/rand_util.cc` |
| `PendingTask` | the order of delayed tasks in `base/pending_task.cc` |
| `Arithmetic`, `Words`, `WordBits`, `BlockStream`, `Positions`, `Options` | quotients, 32-bit words, their bytes and bits, messages cut into 64-byte blocks, positions in lists, values that may be missing |

Code that changes objects step by step is modelled by classes with the same fields, and each
method is tied to a function on the abstract state; the main theorems are lemmas about all
runs of those functions. Machine words are integers with the reduction modulo 2^32 or 2^64
written out. Random words, file system answers, what callbacks and tasks do, and the schedule
of threads are parameters over which the theorems quantify. Ghost fields hold the history
that the theorems speak about.

## Where the code differs from what is said about it

- **MD5 length.** The comment at `base/md5.cc:219` says MSB-first; the code stores the low word
  first (`base/md5.cc:253-256`), as section 3.2 of RFC 1321 asks, and the digest is the RFC's.
- **Quoting.** `base/command_line.h` promises that arguments are quoted as needed. An argument
  comes back from the printed line exactly under the condition in `ArgvRoundTrip.ComesBackExactly`:
  empty arguments, tabs in arguments printed bare, and blanks or quotes in switch names are lost.
- **Feeding argv back.** A parsed argv parses to itself exactly if no switch without a value has
  an empty name or a name that ends in white space; `--=` becomes the terminator `--`.
- **Callbacks added during Notify.** The comments in `base/callback_list_unittest.cc` (lines
  272-274) expect them to run in that pass. They do unless the iterator is at the end already,
  as it is while the last callback of the list runs.
- **Copies of read-only pickles** keep write offset 0 with a payload (`base/pickle.cc:238`,
  `base/pickle.cc:257`, `base/pickle.cc:284`). What is written to a copy is appended exactly if the
  write offset of the original is at its end: in a pickle that was only written to it always is,
  in a read-only one exactly if there is no payload (`PickleIterators.WriteToCopy`). Else it
  replaces what was received (`PickleIterators.SecondIntReplacesFirst`).
- **Failed reads** move the cursor to the end, except when the length of a string16 overflows
  (`base/pickle.cc:77-78`): there it stays behind the length (`PickleFormat.FailedRead`), and the
  next read can succeed (`PickleFormat.ReadGoesOnAfterFailure`).
- **Registering a path provider** does not clear the cache (`base/path_service.cc:299-328`). With
  disjoint key ranges, as the debug check asks, a cached path can still become wrong if an
  older provider asked for a key of the new range to find it; it cannot if none did.
- **Quitting one run loop** has, says `base/run_loop.h` (lines 52-54), no bearing on others. With
  the one flag of `base/message_loop/message_pump_default.cc` it has: a loop that is started
  later in the same task ends after one task. The statement holds of a loop, whatever its tasks
  do, exactly if that flag is clear when the loop is run, as a DCHECK asks
  (`RunLoopSpec.NoBearingOnOthers`).
- **Clearing an `IDMap`** that does not own its values does nothing unless it is being iterated
  (`base/id_map.h:119-128`), and `Lookup` finds entries that wait to be removed.
- **Environment changes** mean a map update exactly if no variable that gets a value has an
  equals sign in its name, and the block reads back exactly if there is no NUL in what is put in.

## Model

| member | source | states |
|---|---|---|
| `Md5.ByteReverse` | base/md5.cc:39-48 | on a machine of either byte order each four-byte group becomes the native form of the word whose little-endian form it was; the other bytes stay |
| `Md5.ByteReverseWords` | base/md5.cc:39-48 | the same for the state words: afterwards their memory reads as the four words low-order byte first |
| `Md5Transform.ApplyIsAux` | base/md5.cc:50-56 | the optimized F1 and F2, and F3 and F4, are the auxiliary functions of RFC 1321 in every one of the 64 steps |
| `Md5Transform.StepIsNext` | base/md5.cc:58-60 | one MD5STEP with the word, constant and rotation of step i takes i table-driven rounds of the RFC to i + 1 |
| `Md5Transform.Transform` | base/md5.cc:67-147 | the 64 unrolled lines change buf as the compression function of RFC 1321, given by its tables, does |
| `Md5.AddToCount` | base/md5.cc:176-181 | the two 32-bit count words with their carry hold 8 times the message length modulo 2^64 before and after |
| `Md5.Context.Init` | base/md5.cc:157-165 | the context stands for the empty message |
| `Md5.Context.UpdateBitCount` | base/md5.cc:176-181 | the bit count of the message is that of the longer message, for lengths up to 2^64 - 1 |
| `Md5.Context.TransformBuffer` | base/md5.cc:196-197 | a full buffer extends the fold over whole blocks by that block |
| `Md5.Context.Update` | base/md5.cc:171-215 | a context that stands for a message stands for the message with the data appended, however the 64-byte boundaries fall |
| `Md5.Context.Pad` | base/md5.cc:226-258 | padding and length make the state the fold over the whole padded message, in one or two last blocks |
| `Md5.BytesOfLow` | base/md5.cc:253-256 | the low count word, in native memory, is the first half of the 64-bit length of RFC 1321 |
| `Md5.BytesOfHigh` | base/md5.cc:253-256 | the high count word is the second half |
| `Md5.LastWords` | base/md5.cc:250-256 | reversing 14 words and copying two count words gives the sixteen words of the last padded block |
| `Md5.Context.Final` | base/md5.cc:221-262 | the digest is that of RFC 1321 for the message so far, and the context is zeroed |
| `Md5.Context.IntermediateFinal` | base/md5.cc:264-270 | the digest of the message so far; the context still stands for it |
| `Md5.HashPieces` | base/md5.cc:171-262 | any message cut in any way into pieces has the one-shot RFC 1321 digest of the concatenation |
| `Md5Answer.DigestOfAbc` | base/md5.cc:61-147 | by the tables of the specification, which the transform follows line by line, abc has the digest that appendix A.5 of RFC 1321 gives; it depends on every constant, rotation and index |
| `Md5.Sum` | base/md5.cc:286-291 | one call gives the RFC 1321 digest of the data |
| `Sha1.FIsLogical` | base/sha1_portable.cc:66-76 | the or-forms of f are the Ch, Parity and Maj functions of FIPS 180-3 for every t |
| `Sha1.SwapEndsReads` | base/sha1_portable.cc:94-96 | swapends turns the little-endian reading of four bytes into the big-endian one |
| `Sha1.StoreByte` | base/sha1_portable.cc:57-60 | a byte stored in M changes that byte of the overlaid schedule words and no other |
| `Sha1.LengthModulo` | base/sha1_portable.cc:147-154 | the eight bytes taken from l are the 64-bit big-endian bit length of FIPS 180-3 |
| `Sha1.SecureHashAlgorithm.Init` | base/sha1_portable.cc:100-113 | the object stands for the empty message |
| `Sha1.SecureHashAlgorithm.MakeSchedule` | base/sha1_portable.cc:166-171 | the words overlaid on the buffer become the 80-word schedule of its block |
| `Sha1.SecureHashAlgorithm.RunRounds` | base/sha1_portable.cc:181-188 | the 80 rounds give the registers that FIPS 180-3 section 6.1.2 gives |
| `Sha1.SecureHashAlgorithm.Process` | base/sha1_portable.cc:157-198 | the chaining value becomes the compression of the buffered block, and the buffer is empty |
| `Sha1.SecureHashAlgorithm.UpdateByte` | base/sha1_portable.cc:125-130 | the object stands for the message with one more byte |
| `Sha1.SecureHashAlgorithm.Update` | base/sha1_portable.cc:123-131 | the object stands for the message with the data appended |
| `Sha1.SecureHashAlgorithm.Pad` | base/sha1_portable.cc:133-155 | buffer and chaining value are those before the last block of the padded message, also when padding spills into an extra block |
| `Sha1.SecureHashAlgorithm.Final` | base/sha1_portable.cc:115-121 | the words in memory are the bytes of the FIPS 180-3 digest |
| `Sha1.HashPieces` | base/sha1_portable.cc:115-198 | any message cut in any way into pieces has the FIPS 180-3 digest of the concatenation |
| `Sha1Answer.DigestOfAbc` | base/sha1_portable.cc:66-92 | by the specification abc has the digest 0xa9993e36 4706816a ba3e2571 7850c26c 9cd0d89d of section A.1 of FIPS 180-2; it depends on every constant, rotation and index |
| `Sha1Answer.ConstantsAreRoots` | base/sha1_portable.cc:82-92 | the constants are 2^30 times the square roots of 2, 3, 5 and 10, cut off |
| `Sha1.HashBytes` | base/sha1_portable.cc:207-214 | one call gives the FIPS 180-3 digest |
| `Bits.Log2Floor` | base/bits.h:17-32 | the i with 2^i <= n < 2^(i+1), or -1 for 0 |
| `Bits.Log2Ceiling` | base/bits.h:35-42 | the i with 2^(i-1) < n <= 2^i, or -1 for 0 |
| `Bits.Align` | base/bits.h:45-48 | the least multiple of the alignment that is at least size |
| `Pickles.Grown` | base/pickle.cc:398-404 | growth reaches the needed size, at least doubles the capacity less 64, keeps it a multiple of 64, and takes at most twice the needed size and a page |
| `Pickles.Pickle.constructor` | base/pickle.cc:212-232 | an empty payload that may be appended to, with no more room than needed |
| `Pickles.Pickle.Resize` | base/pickle.cc:324-330 | the capacity becomes the next multiple of 64, and header and payload are kept |
| `Pickles.Pickle.WriteBytesCommon` | base/pickle.cc:387-411 | the payload becomes what is in front of the write offset with the zero-padded data behind it; size, offset and user header are right |
| `Pickles.Pickle.WriteBytes` | base/pickle.cc:307-310 | writes the bytes, padded with zeros to a multiple of four, at the write offset; so appends them if it is at the end |
| `Pickles.Pickle.WriteInt` | base/pickle.h:171-173 | writes the four little-endian bytes at the write offset; so appends them if it is at the end |
| `Pickles.Pickle.WriteBool` | base/pickle.h:168-170 | the encoding of the bool, a whole int, goes to the write offset, in any pickle that may be written |
| `Pickles.Pickle.WritePOD` | base/pickle.h:179-204 | the encoding of a fixed-size value, 2-byte values padded to 4, goes to the write offset |
| `Pickles.Pickle.WriteString` | base/pickle.cc:288-293 | length and bytes go to the write offset |
| `Pickles.Pickle.WriteString16` | base/pickle.cc:295-301 | length in units and the bytes of the units go to the write offset |
| `Pickles.Pickle.WriteData` | base/pickle.cc:303-305 | length and bytes go to the write offset, or it fails and writes nothing for a negative length |
| `Pickles.Pickle.WriteAll` | base/pickle.cc:387-411 | a sequence of typed values appends exactly its encoding; of a pickle that began empty and was only written to, all bytes that growth ever copied are linear in the payload |
| `PickleIterators.WriteFresh` | base/pickle.cc:387-411 | a new pickle with these values has exactly their encoding as payload, and growth has copied at most 8 times the payload and 16380 bytes |
| `Pickles.Pickle.Reserve` | base/pickle.cc:312-322 | there is room for the bytes, and nothing but the capacity changes |
| `Pickles.Pickle.ReadOnly` | base/pickle.cc:234-251 | accepts exactly data whose payload size leaves a positive header size that is a multiple of four, and then has the payload that the size field delimits |
| `Pickles.Pickle.Copy` | base/pickle.cc:253-260 | the same header and payload in its own memory, and the write offset of the original, whatever it is |
| `Pickles.Pickle.Assign` | base/pickle.cc:267-286 | the same for assignment, also over a read-only pickle or one with another header size |
| `PickleIterators.PickleIterator.Advance` | base/pickle.cc:40-47 | the cursor moves by the aligned size and never past the end |
| `PickleIterators.PickleIterator.GetReadPointerAndAdvance` | base/pickle.cc:60-69 | the bytes asked for, or none and the cursor at the end, for any count |
| `PickleIterators.PickleIterator.GetElementsAndAdvance` | base/pickle.cc:71-80 | the bytes of so many elements; if that many do not fit an int, none and the cursor stays; none from a pickle that was refused |
| `PickleIterators.PickleIterator.ReadString` | base/pickle.cc:144-154 | the string that starts at the cursor, or a failure |
| `PickleIterators.PickleIterator.ReadString16` | base/pickle.cc:168-178 | the units that start at the cursor, or a failure |
| `PickleIterators.PickleIterator.ReadData` | base/pickle.cc:192-200 | the data block that starts at the cursor, or a failure |
| `PickleIterators.PickleIterator.ReadTypes` | base/pickle.cc:82-208 | one value or failure for each type, as the format says; nothing but failures from a pickle that was refused |
| `PickleFormat.IntIsWritten` | base/pickle.h:171-173 | the four bytes of an int are those of its two's complement, the lowest first |
| `PickleFormat.LongIsWritten` | base/pickle.h:179-190 | the eight bytes of a long or int64 likewise |
| `PickleFormat.UnsignedIsWritten` | base/pickle.h:182-198 | the bytes of the unsigned numbers, a uint16 padded to four |
| `PickleFormat.BytesAreWritten` | base/pickle.cc:288-310 | a bool is 1 or 0 in four bytes; a string or data block is its length in four bytes, its bytes, and zeros up to a multiple of four |
| `PickleFormat.UnitsAreWritten` | base/pickle.cc:295-301 | a string16 is the number of its units in four bytes, two bytes for each, and zeros up to a multiple of four |
| `PickleFormat.ReadWritten` | base/pickle.cc:40-208 | a typed value written at any place of any payload is read back there and the cursor ends just behind it |
| `PickleFormat.ReadAllWritten` | base/pickle.cc:40-208 | reading with the types it was written with gives exactly the values and uses the payload up |
| `PickleFormat.ReadBackThenFail` | base/pickle.cc:40-208 | after that one more int is refused |
| `PickleFormat.FailedRead` | base/pickle.cc:60-80 | a failed read of any bytes leaves the cursor at the end, but for the string16 whose length overflows |
| `PickleFormat.ReadGoesOnAfterFailure` | base/pickle.cc:71-80 | a string16 that claims 2^30 units is refused with the cursor behind the claim, and the int behind it is then read |
| `PickleFormat.CursorStaysAligned` | base/pickle.cc:40-80 | the cursor is a multiple of four or at the end, whatever bytes are read as whatever types |
| `PickleFormat.FixedRoundTrip` | base/pickle.h:168-204 | each fixed-size value is determined by its bytes |
| `PickleIterators.RoundTrip` | base/pickle.cc:40-411 | values written to a fresh pickle come back unchanged through the buffer, and one more int is refused |
| `PickleIterators.Transport` | base/pickle.cc:234-251 | the bytes of a pickle, sent elsewhere, are a read-only pickle with the same payload |
| `PickleIterators.WriteToCopy` | base/pickle.cc:234-260 | an int written to a copy is appended exactly if the write offset of the original was at its end, as in any pickle that was only written to; of a read-only original that is so exactly if it has no payload, and otherwise the copy holds the int alone |
| `PickleIterators.SecondIntReplacesFirst` | base/pickle.cc:234-260 | an int sent in a pickle is gone from the copy of what was received once another int is written to that copy |
| `PickleIterators.FindNextIsBoundary` | base/pickle.cc:339-377 | FindNext finds n exactly if the first n bytes are one whole pickle |
| `PickleIterators.WalkFindsAll` | base/pickle.cc:339-377 | walking a concatenation of pickles stops exactly at each boundary and reports no incomplete tail |
| `PickleIterators.PrefixIsIncomplete` | base/pickle.cc:339-377 | a proper prefix of a pickle starts with no whole pickle |
| `ArgvQuoting.PrintedAsIs` | base/command_line.cc:101-109 | printed without quotes are exactly the strings without a space, a backslash or a double quote, nor a percent sign where placeholders are quoted |
| `ArgvQuoting.EscapedRun` | base/command_line.cc:115-129 | a run of backslashes is doubled exactly if a double quote or the end follows |
| `ArgvQuoting.QuoteForCommandLineToArgvW` | base/command_line.cc:98-143 | the loop over runs computes the escaped text character by character, in quotes exactly if a quotable character occurs |
| `ArgvQuoting.RunEscaped` | base/command_line.cc:112-140 | inside quotes the CommandLineToArgvW rules read the escaped text and the closing quote as the text itself |
| `ArgvRoundTrip.SafePiecesComeBack` | base/command_line.cc:437-466 | safe arguments joined by spaces are parsed into exactly those arguments, with or without the doubled-quote rule |
| `ArgvRoundTrip.ComesBackExactly` | base/command_line.cc:98-143 | a printed line parses into exactly its arguments if and only if each is non-empty, has no blank or quote in an unquoted part, no tab in a bare value, and is no switch with = and an empty value |
| `ArgvRoundTrip.AllComeBackInAnyDialect` | base/command_line.cc:98-143 | under that condition the other rule for doubled quotes gives the same |
| `ArgvRoundTrip.SomeArgumentsAreLost` | base/command_line.cc:102-110 | the empty argument and one with only a tab do not come back |
| `CommandLines.CommandLine.SetProgram` | base/command_line.cc:265-267 | only the program changes |
| `CommandLines.CommandLine.AppendSwitchNative` | base/command_line.cc:315-337 | the switch goes behind the switches and in front of the arguments; map and mirror give the last value of each name |
| `CommandLines.CommandLine.AppendArgNative` | base/command_line.cc:381-383 | the argument goes behind the arguments, and nothing else changes |
| `CommandLines.CommandLine.AppendSwitchesAndArguments` | base/command_line.cc:73-94 | switches and arguments of the parsed argv are appended in order, up to the terminator and behind it |
| `CommandLines.CommandLine.InitFromArgv` | base/command_line.cc:252-259 | program, switches and arguments are those of the given argv and of nothing before |
| `CommandLines.CommandLine.AppendArguments` | base/command_line.cc:385-390 | the other command line is appended, its program taken over only if asked |
| `CommandLines.CommandLine.PrependWrapper` | base/command_line.cc:392-403 | the trimmed pieces of the wrapper, none for the empty one, go in front of the program; switches and arguments stay |
| `Strings.SplitString` | base/strings/string_split.cc:71-100 | the trimmed pieces, empty ones included; nothing for the empty string |
| `Strings.PiecesAreUnique` | base/strings/string_split.cc:71-100 | before they are trimmed the pieces are the only strings without the delimiter that make up the string when joined by it |
| `CommandLines.CommandLine.GetArgumentsStringInternal` | base/command_line.cc:437-466 | the pieces of argv joined by single spaces, values and arguments quoted on Windows and bare on POSIX |
| `CommandLines.CommandLine.PrintAndParse` | base/command_line.cc:437-466 | printing and parsing gives argv back if and only if each argument comes back |
| `CommandLines.CommandLine.HasSwitch` | base/command_line.cc:269-273 | whether a switch with the name was appended |
| `CommandLines.CommandLine.GetSwitchValueNative` | base/command_line.cc:298-304 | the value of the last switch with the name, or the empty string |
| `CommandLines.CommandLine.GetArgs` | base/command_line.cc:357-366 | the arguments without the first terminator |
| `ArgvParsing.SwitchesAre` | base/command_line.cc:29-70 | a switch begins with - and is neither - nor --, or on Windows begins with / and has more than that |
| `ArgvParsing.SwitchIsRead` | base/command_line.cc:56-94 | prefix, name, = and value, or prefix and name, are read as the switch with that name, lower-cased on Windows, and that value or none |
| `ArgvParsing.TerminatorStops` | base/command_line.cc:73-94 | parsing stops at the first argument that is, trimmed, --: it and all behind it are arguments, and the switches are those in front of it |
| `ArgvParsing.NeverStops` | base/command_line.cc:73-94 | without one each argument adds a switch if it is one, and else an argument |
| `ArgvParsing.LastValueWins` | base/command_line.cc:315-337 | the map has for the name of a switch the value that was given last |
| `ArgvParsing.NoSuchSwitch` | base/command_line.cc:315-337 | and no other names |
| `ArgvParsing.FirstTerminatorIsDropped` | base/command_line.cc:357-366 | GetArgs leaves out the first -- and nothing else |
| `ArgvFixpoint.ParseYields` | base/command_line.cc:56-94 | what parsing yields as arguments is parsed as arguments again |
| `ArgvFixpoint.StableReadsBack` | base/command_line.cc:56-70 | a stable switch, printed, is parsed as that switch |
| `ArgvFixpoint.UnstableChanges` | base/command_line.cc:56-94 | any other parsed switch is parsed as another switch or as none |
| `ArgvFixpoint.ParsesToItself` | base/command_line.cc:73-94 | a parsed argv parses to itself if and only if all its switches are stable |
| `ArgvFixpoint.SomeArgvChanges` | base/command_line.cc:56-94 | --= does not |
| `ArgvFixpoint.InitTwice` | base/command_line.cc:252-259 | InitFromArgv on the argv() it made gives the same switches and arguments if and only if all are stable, and the same argv and divider if and only if all are, and then the same map |
| `Environment.ParseEnvLine` | base/environment.cc:105-117 | the key is what is in front of the first =, and the length is that of the line and its NUL |
| `EnvironmentSpec.LineMeans` | base/environment.cc:105-117 | a line gives the variable in front of its first = what is behind that |
| `Environment.BlocksAre` | base/environment.cc:144-180 | the block of no lines is two NULs, that of one line the line and two NULs |
| `Environment.AlterBlock` | base/environment.cc:144-180 | the block of the lines not changed, in order, and one line for each change with a value; two NULs at the end even without lines |
| `Environment.AlterPointers` | base/environment.cc:184-232 | one pointer for each altered line and a null; each line with its NUL lies where its pointer points, inside the memory that was allocated |
| `Environment.RoundedUp` | base/environment.cc:212-214 | the allocation is whole words and holds pointers and storage |
| `Environment.ReadFromPointer` | base/environment.cc:196-229 | reading at a pointer gives the line exactly if there is no NUL in it |
| `EnvironmentSpec.AlteredIsUpdate` | base/environment.cc:144-232 | the new lines give every variable its changed or old value if and only if no variable that gets a value has an = in its name |
| `Environment.BlockIsUpdate` | base/environment.cc:144-180 | the block reads back as the new lines if and only if nothing put in has a NUL; then it is the map update if and only if no name of a variable that gets a value has an = |
| `Environment.PointersAreUpdate` | base/environment.cc:184-232 | read through its pointers up to the null, that array is the altered lines if and only if nothing put in has a NUL; then it is the map update if and only if no name of a variable that gets a value has an = |
| `ObserverLists.ObserverList.AddObserver` | base/observer_list.h:157-166 | the list afterwards, unchanged for an observer that is there |
| `ObserverLists.ObserverList.RemoveObserver` | base/observer_list.h:168-180 | the slot is nulled during passes and erased between them |
| `ObserverLists.ObserverList.HasObserver` | base/observer_list.h:182-190 | whether the observer is registered |
| `ObserverLists.ObserverList.Clear` | base/observer_list.h:192-202 | all slots are nulled during passes, or erased |
| `ObserverLists.ObserverList.Compact` | base/observer_list.h:204-209 | the slots that are not null, in order |
| `ObserverLists.Iterator.constructor` | base/observer_list.h:129-137 | one more pass is on; its limit is fixed for an existing-only list |
| `ObserverLists.Iterator.GetNext` | base/observer_list.h:145-155 | the next slot in front of the limit that is not null; null if the list has been destroyed |
| `ObserverLists.Iterator.Destroy` | base/observer_list.h:139-143 | one pass fewer; the last compacts; nothing if the list has been destroyed |
| `ObserverListSpec.OperationsRefine` | base/observer_list.h:129-209 | every operation keeps the vector well formed and does to the abstract list what its name says |
| `ObserverPasses.SlotsStay` | base/observer_list.h:168-202 | during a pass no operation moves a slot |
| `ObserverPasses.RunKeepsInv` | base/observer_list.h:129-209 | after any run each position that a pass went past was called, once and in order, or skipped and is null |
| `ObserverPasses.CalledUnlessRemoved` | base/observer_list.h:129-209 | a pass calls a position it goes past if and only if the position is not null at that moment, which is so for one that was not null exactly if no removal of its observer and no clear came before |
| `ObserverPasses.RemovedIsNotCalled` | base/observer_list.h:145-202 | an observer that is removed before the pass reaches it is never called by the pass |
| `ObserverPasses.CallsAreFinal` | base/observer_list.h:129-209 | a pass only goes forward and what it has called stays called; once the list is destroyed nothing more happens to it |
| `ObserverPasses.CompletedPass` | base/observer_list.h:129-209 | a completed pass has called, once each and in order, exactly the registrations there at its start that no removal or clear took before the pass reached them, and those added since that were there when it reached them; none of those if existing-only |
| `ObserverPasses.RegisteredIsCalledOnce` | base/observer_list.h:129-209 | an observer that is registered when a pass begins and not removed meanwhile has been called exactly once by a completed pass |
| `ObserverPasses.UnregisteredIsNotCalled` | base/observer_list.h:145-202 | one that is not registered, nor added, is not called from then on |
| `ObserverPasses.RunKeepsList` | base/observer_list.h:157-209 | after every run that does not destroy it the live slots are the list that additions, removals and clears make |
| `ObserverPasses.VectorAfterPasses` | base/observer_list.h:139-209 | between passes the vector is that list, without nulls or duplicates |
| `ObserverLists.RunOps` | base/observer_list.h:129-243 | the object afterwards is the state that the script means, notifications within notifications and destruction included |
| `ObserverLists.ForEachObserver` | base/observer_list.h:234-243 | the object afterwards is the state that the notification with these callbacks means, and the observers called, in order, are those of its pass |
| `ObserverScripts.PerformIsRun` | base/observer_list.h:129-243 | what a script means is a run of the step relation that leaves the passes of the callers alone, so all the above holds of it |
| `ObserverScripts.NotifyIsPass` | base/observer_list.h:234-243 | what a notification means is one pass of the step relation, from its first to its last GetNext |
| `ObserverScripts.NotifyCalls` | base/observer_list.h:234-243 | a notification that no callback ends by destroying the list calls, once each and in order, exactly the observers registered when it begins that no callback removed before it got to them, and of those added since the ones there when it got to them; none of those if existing-only |
| `ObserverListThreadSafe.ApplyKeepsInv` | base/observer_list_threadsafe.h:115-256 | every step of any thread keeps: map entries live, unlinked contexts held by a removal or a delivery, iterator counts right |
| `ObserverListThreadSafe.NoFault` | base/observer_list_threadsafe.h:115-256 | over every interleaving no dead context is used, and none is freed twice or under an iterator |
| `ObserverListThreadSafe.EntriesAreAlive` | base/observer_list_threadsafe.h:115-164 | each map entry points to a living context of its own thread |
| `ObserverListThreadSafe.DeliveryFrees` | base/observer_list_threadsafe.h:235-255 | the outermost delivery goes on to free its context exactly if no observer is left, as always when it was unlinked; an inner one frees nothing |
| `ObserverListThreadSafe.EmptiedIsFreed` | base/observer_list_threadsafe.h:241-255 | it then does free it, whatever other threads do before it takes the lock and between that and the deletion; until then the context is alive and empty |
| `ObserverListThreadSafe.NothingLeaks` | base/observer_list_threadsafe.h:210-256 | with all calls returned and tasks run, living contexts are exactly those in the map, and destruction frees them |
| `ObserverListThreadSafePasses.TasksOfStep` | base/observer_list_threadsafe.h:178-192 | Notify posts exactly one task for each map entry, a delivery takes its own, and nothing else posts or takes any |
| `ObserverListThreadSafePasses.ObserversOfStep` | base/observer_list_threadsafe.h:115-164 | AddObserver and RemoveObserver do to the observers of their thread what their names say; nothing else changes the observers of any thread until the list is destroyed |
| `ObserverListThreadSafePasses.StepOnContext` | base/observer_list_threadsafe.h:115-256 | for each context every step of any thread is one event on its observer list, or none; a delivery is a pass |
| `ObserverListThreadSafePasses.DeliveredOnce` | base/observer_list_threadsafe.h:213-256 | an observer registered when a delivery to its thread begins and not removed by the thread meanwhile has been called exactly once at its end, in every interleaving |
| `ObserverListThreadSafePasses.RemovedIsNotCalled` | base/observer_list_threadsafe.h:134-164 | one that is removed before a delivery has called it is not called by it any more |
| `ObserverListThreadSafePasses.NotifiedOnce` | base/observer_list_threadsafe.h:172-256 | from Notify on: the delivery to the thread of a registered observer that is not removed can begin when the thread is idle, and at its end has called the observer exactly once, whatever happens before and while it is on |
| `CallbackLists.CallbackList.Add` | base/callback_list.h:106-110 | the node goes to the end of the list |
| `CallbackLists.CallbackList.DestroySubscription` | base/callback_list.h:86-94 | reset during passes; erased with one run of the removal callback between them |
| `CallbackLists.CallbackList.Compact` | base/callback_list.h:178-192 | exactly the live nodes stay, in order, and the removal callback runs once if any was dropped |
| `CallbackLists.Iterator.constructor` | base/callback_list.h:128-132 | one more active iterator, at the beginning |
| `CallbackLists.Iterator.GetNext` | base/callback_list.h:146-156 | the next live node, or the end, where it stays |
| `CallbackLists.Iterator.Destroy` | base/callback_list.h:140-144 | one active iterator fewer; the last compacts |
| `CallbackListPasses.RunKeepsInv` | base/callback_list.h:86-192 | after any run each node that a pass went past was called, once and in order, or skipped and is not live |
| `CallbackListPasses.CalledUnlessRemoved` | base/callback_list.h:86-222 | a pass runs a node it goes past if and only if the node is live at that moment, which is so for a live one exactly if its subscription was not destroyed before |
| `CallbackListPasses.RemovedIsNotCalled` | base/callback_list.h:86-156 | a callback that is removed before the pass reaches it is never run by the pass |
| `CallbackListPasses.CallsAreFinal` | base/callback_list.h:86-192 | a pass only goes forward, and what it has run stays so |
| `CallbackListPasses.CompletedPass` | base/callback_list.h:128-222 | a completed pass has run, once each and in order, exactly the live nodes there at its start whose subscription was not destroyed before the pass reached them, and those added since, in front of its end, that were live when it reached them |
| `CallbackListPasses.EndIsKept` | base/callback_list.h:146-156 | an iterator at the end stays there; any other meets the end behind all nodes now in the list |
| `CallbackListPasses.AddedDuringPass` | base/callback_list.h:106-156 | a callback added during a pass is reached by it if and only if the iterator is not at the end already |
| `CallbackListPasses.AddedByLastIsNotCalled` | base/callback_list.h:214-222 | one added by the only callback is not run in that pass |
| `CallbackListPasses.EventsRefine` | base/callback_list.h:86-192 | each event does to the live subscriptions what its name says; when the last pass ends the list is exactly those, and the removal callback has run once if something was dropped |
| `CallbackListPasses.ListAfterPasses` | base/callback_list.h:86-192 | after any events that leave no pass on, a list that began empty is exactly the subscriptions made and not destroyed, in order, each live and there once |
| `CallbackLists.RunOps` | base/callback_list.h:86-222 | the object afterwards is the state that the script means, notifications within notifications included |
| `CallbackLists.NotifyAll` | base/callback_list.h:214-222 | the object afterwards is the state that the notification with these callbacks means, and the callbacks run, in order, are those of its pass |
| `CallbackScripts.PerformIsRun` | base/callback_list.h:86-222 | what a script means is a run of the step relation that leaves the passes of the callers alone |
| `CallbackScripts.NotifyIsPass` | base/callback_list.h:214-222 | what a notification means is one pass of the step relation, from its first to its last GetNext |
| `CallbackScripts.NotifyCalls` | base/callback_list.h:214-222 | a notification runs, once each and in order, exactly the live callbacks there when it begins that no callback removed before it got to them, and of those added since, in front of its end, the ones live when it got to them |
| `IdMapSpec.EventKeepsInv` | base/id_map.h:84-223 | pending ids are stored keys, none without iterators, keys are distinct, and each iterator has stood on every entry it went past that is not pending |
| `IdMapSpec.RunKeepsInv` | base/id_map.h:84-223 | so after any run with overlapping and copied iterators |
| `IdMapSpec.EventMeans` | base/id_map.h:64-146 | each event is the plain map operation on the live map, but for Clear of a map that does not own its values and is not iterated; when the last iterator dies the live map is unchanged |
| `IdMapSpec.SizeIsLive` | base/id_map.h:143-146 | stored less pending is the number of live entries and of the entries that will stay |
| `IdMapSpec.IteratorSeesLiveEntries` | base/id_map.h:159-223 | an iterator is only ever put on a live entry, and one that has come from the beginning to the end has stood on every live one |
| `IdMapSpec.IteratorMovesTo` | base/id_map.h:159-223 | it goes from the beginning, the place of its original or behind its own to the first live entry, or to the end, and nothing else changes |
| `IdMapSpec.DeletedOnce` | base/id_map.h:84-128 | an owning map deletes each value exactly when it leaves the table, but for Replace; another deletes none |
| `IdMapSpec.RunDeletesOnce` | base/id_map.h:50-128 | over any run of an owning map what was given to it is what it holds, has deleted and has handed back, each value as often; one that does not own deletes none |
| `IdMapSpec.NothingIsKept` | base/id_map.h:50-56 | once it is destroyed, an owning map that began empty has deleted or handed back everything it was given, as often as it was given |
| `IdMaps.IDMap.Add` | base/id_map.h:64-71 | the value under the next id |
| `IdMaps.IDMap.Remove` | base/id_map.h:84-98 | erased and deleted now, or pending while there are iterators |
| `IdMaps.IDMap.Replace` | base/id_map.h:104-117 | the previous value is handed back, and only this entry changes |
| `IdMaps.IDMap.Clear` | base/id_map.h:119-128 | released now or pending |
| `IdMaps.IDMap.Lookup` | base/id_map.h:135-141 | a value exactly for live and pending ids: the live one, or what would be live had the removal not been asked for |
| `IdMaps.IDMap.Size` | base/id_map.h:143-146 | the number of live entries |
| `IdMaps.IDMap.IsEmpty` | base/id_map.h:130-133 | whether nothing is live |
| `IdMaps.IDMap.Compact` | base/id_map.h:252-257 | the entries not pending stay, in order, and each other value is deleted once if owned |
| `IdMaps.Iterator.constructor` | base/id_map.h:159-163 | on the first entry that is not pending |
| `IdMaps.Iterator.Copy` | base/id_map.h:165-169 | on the entry of the original or, if that is pending, the next that is not |
| `IdMaps.Iterator.Advance` | base/id_map.h:203-207 | on the next entry that is not pending |
| `IdMaps.Iterator.Destroy` | base/id_map.h:178-187 | one iterator fewer; the last compacts |
| `LazyInstance.RunKeepsInv` | base/lazy_instance.h:141-203 | every atomic step of any thread keeps: one creator while the word says creating, published words are the buffer, one registration to come |
| `LazyInstance.OneInstance` | base/lazy_instance.h:141-169 | in every interleaving, between resets one caller constructs, nobody returns before publication, all return the same address, and the destructor is registered at most once |
| `LazyInstance.SpinningIsServed` | base/lazy_instance.cc:17-52 | who spins waits for another caller that is creating; with nobody inside, a published instance has its destructor registered exactly if it is to be destroyed |
| `LazyInstance.ConstructedAndDeleted` | base/lazy_instance.h:141-203 | over every run of any number of threads there are as many constructions as runs of OnExit, but for the instance at the beginning and the one at the end |
| `LazyInstance.ConstructedSinceStart` | base/lazy_instance.h:141-203 | from the start, constructions are deletions, and one more if there is an instance now |
| `LazyInstance.ReturnedIsNew` | base/lazy_instance.h:141-203 | whoever has returned, when there was no instance at first and none has been deleted since, got the one instance made in between |
| `LazyInstance.ExitLeavesNothing` | base/lazy_instance.h:198-203 | after OnExit there is no instance, so the next caller makes a new one |
| `LazyInstance.StepsCount` | base/lazy_instance.cc:17-52 | in every interleaving each step of a caller brings it nearer to its return, except while another creates the instance |
| `LazyInstance.CallerReturns` | base/lazy_instance.cc:17-52 | a caller that need not wait returns with the instance within six steps of its own; one that has spun in two, once the instance is published; one that creates it in four |
| `LazyInstance.FastPath` | base/lazy_instance.h:153-169 | once the instance is published a caller gets it with two loads and writes nothing |
| `PathService.PathData.LockedGetFromCache` | base/path_service.cc:148-159 | what it finds is what a resolver without a cache finds now |
| `PathService.PathData.LockedGetFromOverrides` | base/path_service.cc:163-173 | the override, and the cache stays coherent |
| `PathService.FirstProviderAnswers` | base/path_service.cc:203-223 | the first provider that knows the key decides: its path is found as it is or, with .. in it, made absolute, and nothing if it is empty or cannot be made absolute |
| `PathService.NobodyKnows` | base/path_service.cc:203-215 | nothing is found for a key that no provider knows |
| `PathService.NoParents` | base/path_service.cc:217-222 | no path from a provider comes back with .. in it |
| `PathService.PathData.Get` | base/path_service.cc:180-230 | the answer of a resolver without a cache, for providers that may call Get themselves; the cache stays coherent |
| `PathService.PathData.OverrideAndCreateIfNeeded` | base/path_service.cc:240-277 | the override is in force for this key and, the cache being dropped, for every answer that depends on it, even if a registration had made the cache wrong |
| `PathService.PathData.RemoveOverride` | base/path_service.cc:280-296 | the override is gone; if there was one the cache is coherent, whatever it was before |
| `PathService.PathData.RegisterProvider` | base/path_service.cc:299-328 | the provider comes first; the cache stays coherent if the provider keeps to its range and none of the cached paths was found by asking in it |
| `PathService.NewProviderKeepsAnswers` | base/path_service.cc:299-328 | an answer for which no key of the new range was asked, at any depth, does not change |
| `PathService.NobodyAnswered` | base/path_service.cc:314-322 | with disjoint ranges, as the debug check asks, nobody but an override answered for a key of the new range before |
| `PathService.DisjointRangesAreNotEnough` | base/path_service.cc:299-328 | two providers with disjoint ranges for which a cached answer becomes wrong |
| `PathService.OverrideReachesOtherKeys` | base/path_service.cc:270-272 | an override for one key changes the answer for another, so forgetting the one cached path would not do |
| `PathService.PathData.DisableCache` | base/path_service.cc:331-338 | the cache is empty, off and coherent, whatever it was before |
| `RunLoopSpec.RunKeepsInv` | base/run_loop.cc:47-104 | whatever tasks do, the innermost loop that was told to quit has its pump told, and no loop gets a task after it was told; a loop returns only if it was told, or with one shared flag a loop around it |
| `RunLoopSpec.NoBearingOnOthers` | base/run_loop.h:52-54 | a loop returns, whatever its tasks do, only if it was told to quit itself if and only if each run has its own flag or the shared one is clear when it is run |
| `RunLoopSpec.EndsForAnother` | base/message_loop/message_pump_default.cc:24-68 | with the flag set it returns after its first task, or at once if there is none, though nobody told it |
| `RunLoopSpec.ReturnKeepsInv` | base/run_loop.cc:93-102 | when a loop returns, a Quit deferred for the loop around it is delivered at once |
| `RunLoopSpec.OneFlagEndsNestedLoop` | base/run_loop.cc:65-71 | with one shared flag a loop ends that nobody told to |
| `RunLoopSpec.OwnFlagLetsNestedLoopRun` | base/run_loop.cc:65-71 | with a flag for each run the same loop goes on |
| `RunLoops.RunLoop.BeforeRun` | base/run_loop.cc:77-91 | not entered exactly if it was told to quit before; else it is the innermost of a chain of depths n to 1, all running |
| `RunLoops.RunLoop.AfterRun` | base/run_loop.cc:93-102 | the chain is one shorter, and the deferred quit is delivered |
| `RunLoops.RunLoop.Quit` | base/run_loop.cc:65-71 | recorded, and passed to the pump exactly if this loop is the innermost |
| `RunLoops.RunLoop.Run` | base/run_loop.cc:47-59 | what it does to the chain and to the pending quit is a run of the step functions, for any tasks |
| `RunLoops.MessageLoop.RunHandler` | base/message_loop/message_pump_default.cc:24-68 | tasks up to the first after which the pump is to quit; it ends with no task left only if it is to quit |
| `RandUtil.RandGenerator` | base/rand_util.cc:50-65 | the residue of the first acceptable word, below the range; none exactly if no word is acceptable |
| `RandUtil.Times` | base/rand_util.cc:56-57 | the range fits so often into the words, and more than half of them are accepted |
| `RandUtil.CountOfWords` | base/rand_util.cc:56-64 | exactly that many acceptable words lead to each result |
| `RandUtil.Uniform` | base/rand_util.cc:50-65 | for any number of draws as many lists of words yield one result as any other |
| `RandUtil.RandInt` | base/rand_util.cc:18-29 | a number from min to max for all int bounds, the same words for each as for a residue; nothing wraps or is cut off |
| `PendingTasks.LessIsAfter` | base/pending_task.cc:36-50 | comparisons are right for all tasks posted within a span if and only if the span is below 2^31 |
| `PendingTasks.StrictTotalOrder` | base/pending_task.cc:36-50 | irreflexive, asymmetric, transitive and total on tasks posted within 2^31 |
| `PendingTasks.FarApartItIsACircle` | base/pending_task.cc:47-49 | three tasks further apart are each before the next in a circle |
| `PendingTasks.TopIsEarliest` | base/pending_task.cc:36-50 | a task is a greatest element if and only if it is due first, and posted first among those due then |
| `PendingTasks.RunsInOrder` | base/pending_task.cc:36-50 | in every run of posts and pops, tasks for one time run in posting order, and of two in the queue together the one due first runs first |

## Left out

- Weak memory: atomic operations of `base/lazy_instance.cc` and sections under a lock are sequentially consistent steps.
- `base/observer_list_threadsafe.h` and `base/lazy_instance.h` are step relations over all threads, not classes; the other files keep their classes and loops.
- The removal callback of a callback list is counted, not run. It comes last in what runs it, so what it does to the list is as if done directly afterwards.
- Copying of callback list iterators, and parameters of callbacks: a callback is a script of operations on the list.
- `PathService.Get` between threads: it drops the lock while it asks providers and caches the answer afterwards, so coherence is stated for one call after the other. That providers ask each other in no circle is assumed, and the current directory and the file system are parameters.
- PathService.PathData.RegisterProvider: coherence is stated one way only; a provider that asks in the new range may ignore the answer, so the paths can be right all the same.
- `RunUntilIdle`, `QuitWhenIdle` and direct calls of `MessageLoop::QuitNow`; a pump that has no tasks left and is not to quit waits for ever.
- IdMaps.IDMap.Add: not while there are iterators, since an insertion into a hash table may invalidate them and the source says nothing of what they then find.
- The order in which a hash table is gone through: the table of an `IDMap` keeps the order in which ids were added.
- `IDMap::Iterator::operator=`, which names members that do not exist.
- The program name of a Windows command line, which CommandLineToArgvW reads by other rules. On POSIX nothing is quoted, and no rules are given by which the line could be read back.
- `UTF16ToASCII` of switch names is the identity; strings are sequences of characters without encoding.
- The other delimiters and options of `SplitString`.
- `MD5DigestToBase16`, `SHA1HashString` and the floating-point helpers of `base/rand_util.cc`, which would add easy members.
- Words for `RandGenerator` come from a finite list; that a generator ends with probability one is not stated.
- The heap inside `std::priority_queue`: any greatest element may be popped.
- `Environment::GetVar` and its siblings, which call the operating system; overflow of `size_t` in `base/environment.cc`.
- `long` values and reading a `size_t` on a 32-bit machine in `base/pickle.h`; floats are their bytes.
- Failure of memory allocation.
