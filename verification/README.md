# Verified models of a 3DO emulator core

This project models the hard parts of the Opera 3DO core and its CD image
reader in Dafny and proves what they promise. `dafny verify dfyconfig.toml`
checks all of it.

- **Huffman decoder** (`HuffmanBits`, `HuffmanCode`, `HuffmanDecoder`,
  `HuffmanTree`): the cached bit reader, the canonical code builder with its
  packed table, the inlined bulk loop and the run-length coded tree. Decoding
  inverts coding, and the table is right even when the clearing pass is skipped.
- **ARM60** (`ArmBanks`, `ArmHandlers`, `ArmBlock`, `ArmFlags`): banked registers
  refine a flat register file over every run, exceptions return however deep they
  nest, block transfers are the data sheet's walk over the registers and LDM
  undoes STM, and the flag formulas and condition table mean what they say.
- **CEL engine** (`CelBits`, `CelClip`, `CelRow`, `CelPackets`): the big-endian bit
  reader, the exact LINE-mode clip window, packed rows painted exactly, and the
  cached run painter.
- **CD-ROM drive** (`CdromTransfer`, `CdromCommand`, `CdromPacing`,
  `CdromReadAhead`, `CdromDrive`, `CdromReload`): READ_DATA delivers exactly the
  requested sectors under any interleaving and no sooner than the disc turns to
  them, CD-DA read-ahead stays within 49 frames of playback, and what a save and
  load in the middle of a transfer does is known exactly.
- **Timers and clock** (`ClioTimers`, `ClioOneShot`, `Clock`, `ClockRates`):
  cascaded timers are one mixed-radix counter driven by a 16-slot scan, one-shot
  timers fire once, and the 16.16 accumulators give exact counts that keep time.
- **Save states** (`StateBytes`, `StateStreams`, `StateCdrom`, `StateParts`,
  `StateFile`, `StateTheorems`, `StateFormats`, `StateRefusal`, `StateDrive`,
  `StateLoader`, `StateExample`): sizing, writing and reading agree, validation
  agrees with loading, loading restores what was saved, and older chunks load as
  what they were.
- **Cue images** (`CueLayout`, `CueBurn`, `CueToc`): where sectors lie in the
  files, what reads of burned files return, and the table of contents that leads
  to the same tracks.

`Words`, `BitStream` and `DiscTime` hold the machine words, bit windows and disc
times the others use.

Code that changes state in place is a class or a method with loops; its contract
equates the new state with a function of the old one, and the theorems are
proved about that function over all inputs and runs. Where a class would have
many fields it holds one record.

Where the code does not do what is said of it, or what one would expect, the
exact condition is proved:

- The header of the Huffman decoder promises to reject trees that are not
  complete. Incomplete ones are accepted when the totals above length one are
  even, and oversubscribed ones too when the table is larger than it has to be
  (`HuffmanCode.AcceptedIncomplete`).
- An exception taken in a handler of its own mode loses what the first one saved
  (`ArmHandlers.TwoDeepExact`).
- A status write can name an undefined mode, and going through one keeps the
  registers only if the banks agree anyway (`ArmBanks.DetourExact`).
- A drive saved after its deadline has passed is scheduled later after the load
  than without it, and a host can tell exactly when two sectors or more were
  still to go (`StateDrive.LoadIsInvisible`, `CdromReload.LateSchedule`).
- STM and the opposite LDM on the program counter do not meet
  (`ArmBlock.Transfers.StoreThenLoadOnPc`).
- A refused state may already have replaced some components
  (`StateRefusal.RefusedLoad`).
- In a cue with several files, a later file that starts with a pregap makes
  sectors of the previous track point past the end of their file
  (`CueLayout.LayoutIsExact`).

## Model

| member | source | states |
|---|---|---|
| `HuffmanBits.InitCoherent` | libretro-common/encodings/encoding_huffman.c:40-52 | a fresh reader describes the stream from bit zero (the invariant every other reader lemma keeps) |
| `HuffmanBits.FillCoherent` | libretro-common/encodings/encoding_huffman.c:61-70 | refilling, also past the end where zeros are read, keeps the cache equal to the next bits of the zero-extended stream |
| `HuffmanBits.PeekIsWindow` | libretro-common/encodings/encoding_huffman.c:72-84 | a peek of n bits shows the next n bits of the stream, most significant first, and moves nothing |
| `HuffmanBits.RemoveAdvances` | libretro-common/encodings/encoding_huffman.c:86-106 | removing n bits moves the position by n and keeps 8*offset == used + bits |
| `HuffmanBits.FlushAligns` | libretro-common/encodings/encoding_huffman.c:115-133 | a flush returns the first byte boundary at or after the position, never past the buffer |
| `HuffmanBits.BitReader.FillCache` | libretro-common/encodings/encoding_huffman.c:61-70 | the refill loop in place ends in the state the coherence lemmas are about |
| `HuffmanBits.BitReader.Read` | libretro-common/encodings/encoding_huffman.c:108-113 | reading yields the next bits of the stream and advances past them |
| `HuffmanBits.BitReader.Flush` | libretro-common/encodings/encoding_huffman.c:115-133 | the in-place flush gives the aligned byte count of FlushAligns |
| `HuffmanCode.EvenMeansWhole` | libretro-common/encodings/encoding_huffman.c:208-218 | the odd-total test accepts exactly the length sets in which the codes of each length above one end on a boundary of the next shorter length |
| `HuffmanCode.Tiling` | libretro-common/encodings/encoding_huffman.c:208-225 | the intervals of leaves below the assigned codes tile [0, Kraft sum) without gap or overlap |
| `HuffmanCode.CodesInOrder` | libretro-common/encodings/encoding_huffman.c:203-225 | longer codes come before shorter ones, codes of one length follow each other in symbol order, and the first longest one is zero |
| `HuffmanCode.CoversIsPrefix` | libretro-common/encodings/encoding_huffman.c:227-232 | an entry is claimed by a code exactly when the code is a prefix of the entry index |
| `HuffmanCode.ClaimedIsKraft` | libretro-common/encodings/encoding_huffman.c:236-244 | the sum the coverage loop adds up is the Kraft sum |
| `HuffmanCode.CompleteIsBuildable` | libretro-common/encodings/encoding_huffman.c:208-218 | every complete set of lengths passes the parity test |
| `HuffmanCode.IncompleteAccepted` | libretro-common/include/encodings/huffman.h:174-185 | the header promises that only complete trees pass; a lone code of length one is incomplete and accepted, three of them oversubscribed and accepted by a table larger than needed |
| `HuffmanCode.KraftIsTotal` | libretro-common/encodings/encoding_huffman.c:208-218 | with even totals the Kraft sum is the running total at length one, scaled: the total the length-one exception leaves untested |
| `HuffmanCode.AcceptedIncomplete` | libretro-common/encodings/encoding_huffman.c:209-214 | for every table size, a set that is not a complete tree is accepted if and only if totals above length one are even, the total at length one is not two, and the leaves fit the table |
| `HuffmanCode.AcceptedInExactTable` | libretro-common/encodings/encoding_huffman.c:209-214 | in a table of 2^max_bits entries: incomplete and accepted iff the total at length one is below two, complete and accepted iff it is two |
| `HuffmanCode.CodeBound` | libretro-common/encodings/encoding_huffman.c:220-225 | every assigned code is below the number of symbols, so the 16-bit cast loses nothing |
| `HuffmanCode.CodeFitsLength` | libretro-common/encodings/encoding_huffman.c:220-225 | every assigned code of length n is below 2^n when the Kraft sum fits |
| `HuffmanCode.CodeFitsExactly` | libretro-common/encodings/encoding_huffman.c:220-225 | a code fits its own length if and only if its leaf lies in the tree, oversubscribed sets included |
| `HuffmanDecoder.Histogram` | libretro-common/encodings/encoding_huffman.c:188-195 | fails exactly if a length exceeds the maximum; otherwise counts each length |
| `HuffmanDecoder.FirstCodes` | libretro-common/encodings/encoding_huffman.c:208-218 | fails exactly on an odd total above length one; otherwise yields each length's first code |
| `HuffmanDecoder.AssignCodes` | libretro-common/encodings/encoding_huffman.c:220-225 | codes within a length are consecutive in symbol order |
| `HuffmanDecoder.Coverage` | libretro-common/encodings/encoding_huffman.c:236-244 | the early-stopping sum reports full exactly when the Kraft sum reaches the table size |
| `HuffmanDecoder.FillTable` | libretro-common/encodings/encoding_huffman.c:250-272 | writes each symbol's whole interval, failing exactly when the Kraft sum exceeds the table |
| `HuffmanDecoder.Decoder.Build` | libretro-common/encodings/encoding_huffman.c:169-276 | succeeds if and only if lengths fit, totals are even and the Kraft sum fits; then every entry holds the one symbol whose code prefixes its index or zero, also when the clear was skipped |
| `HuffmanDecoder.TableUnique` | libretro-common/encodings/encoding_huffman.c:227-248 | such a table is determined by the lengths alone, so nothing of the old contents survives a skipped clear |
| `HuffmanDecoder.PackIsOr` | libretro-common/encodings/encoding_huffman.c:264-265 | the or-ed entry is the index above a five-bit length, with no overlap of the two |
| `HuffmanDecoder.DecodeOne` | libretro-common/encodings/encoding_huffman.c:278-306 | one symbol decoded in place, unmapped patterns included |
| `HuffmanDecoder.DecodeBulk` | libretro-common/encodings/encoding_huffman.c:511-590 | for every table and stream the inlined loop leaves the same bytes and the same offset, cache, bits, used and overflow as that many calls of decode_one |
| `HuffmanDecoder.EntryAtCode` | libretro-common/encodings/encoding_huffman.c:287-289 | the bits of a symbol's code select that symbol's entry, whatever follows them |
| `HuffmanDecoder.DecodeInvertsEncode` | libretro-common/encodings/encoding_huffman.c:278-306 | for every built decoder and table size, a reader standing at any concatenation of codes that fit their lengths decodes exactly that string and advances by the sum of the lengths; overflow is latched exactly when that passes the end |
| `HuffmanDecoder.EverySymbolHasCode` | libretro-common/encodings/encoding_huffman.c:220-225 | unless the set is oversubscribed, every symbol with a length has such a code |
| `HuffmanDecoder.UnmappedLatches` | libretro-common/encodings/encoding_huffman.c:291-301 | a pattern no code covers yields zero, takes one bit and latches overflow |
| `HuffmanTree.ReadTree` | libretro-common/encodings/encoding_huffman.c:330-377 | reads the run-length coded lengths of the stream and builds; fails exactly on overflow or unbuildable lengths, and ends right behind the tree |
| `HuffmanTree.TreeRoundTrip` | libretro-common/encodings/encoding_huffman.c:343-366 | stored items of any lengths are read back as exactly those lengths, escapes and runs included |
| `HuffmanTree.ReadStoredTree` | libretro-common/encodings/encoding_huffman.c:330-377 | at the stored lengths of all symbols the reader yields exactly those lengths, builds if and only if they are buildable and stands right behind them |
| `HuffmanTree.OneByOneStores` | libretro-common/encodings/encoding_huffman.c:343-366 | every list of lengths that fit the value width has such a stored form |
| `HuffmanTree.ValuesRead` | libretro-common/encodings/encoding_huffman.c:343-366 | what literal values in the stream stand for: a length, two ones for a length of one, and a one, a length and k for that length k + 3 times as far as symbols are left |
| `ArmBanks.SwitchKeepsFile` | libopera/opera_arm.c:360-627 | a bank switch between any two of the six modes changes no register of the flat (mode, register) file |
| `ArmBanks.LoadUserIsExact` | libopera/opera_arm.c:2140-2172 | loadusr writes exactly one user-bank register of the flat file, from every mode |
| `ArmBanks.ReadUser` | libopera/opera_arm.c:2174-2199 | readusr returns the user-bank register of the flat file, from every mode |
| `ArmBanks.WriteIsExact` | libopera/opera_arm.c:360-600 | writing a working register writes exactly the register the current mode calls by that number |
| `ArmBanks.EnterRefines` | libopera/opera_arm.c:698-709 | an exception entry on the banked core is the entry of the flat machine |
| `ArmBanks.StepRefines` | libopera/opera_arm.c:629-648 | every event (writes, mode switches, status writes, entries, returns) refines the flat machine |
| `ArmBanks.RunRefines` | libopera/opera_arm.c:360-648 | every run over the defined modes refines the flat register file |
| `ArmBanks.ExceptionRoundTrip` | libopera/opera_arm.c:1737-1743 | entering any exception and returning through the SPSR restores CPSR and every register of every mode except PC and the handler's r14 |
| `ArmBanks.UndefinedModeLoses` | libopera/opera_arm.c:1222-1238 | a privileged status write can name mode 0x14; from supervisor by way of it to user mode, the user's r13 becomes the supervisor's |
| `ArmBanks.DetourExact` | libopera/opera_arm.c:602-637 | for every defined start and end and every undefined mode between them, the flat file is kept if and only if the two modes are the same or the registers they bank differently hold equal values in the working array and both save areas |
| `ArmBanks.ArmCore.ChangeModeSafe` | libopera/opera_arm.c:602-627 | the in-place swap of bank arrays leaves every register of the flat file where the new mode looks for it |
| `ArmBanks.ArmCore.CpsrSet` | libopera/opera_arm.c:629-637 | a status write naming a defined mode keeps every register of the flat file |
| `ArmBanks.ArmCore.RaiseException` | libopera/opera_arm.c:1027-1038 | the entry sequence in place is the flat machine's entry, where every mode has its own saved status; for each of the five exceptions the mode number, vector, link and masks are those of the data sheet |
| `ArmBanks.ArmCore.ReturnFromException` | libopera/opera_arm.c:1737-1743 | the SPSR return in place is the flat machine's return, which finds what its own mode saved |
| `ArmHandlers.ProgramKeeps` | libopera/opera_arm.c:698-709 | every program whose exceptions nest, to any depth and with register and flag writes anywhere, can be run; it keeps the mode, what every handler under way has saved and each register it does not write or link |
| `ArmHandlers.NestedReturn` | libopera/opera_arm.c:1737-1743 | on the banked core, an exception whose handler is itself interrupted by exceptions of other modes is left with the status it was taken with and all registers but PC, the link registers and those written |
| `ArmHandlers.TwoDeepExact` | libopera/opera_arm.c:1027-1038 | of two exceptions, one in the other's handler, two returns give CPSR back if and only if their handlers' modes differ or the first was taken in its own mode with its masks set |
| `ArmBlock.FoldedIsCount` | libopera/opera_arm.c:820-826 | the four-step 16-bit fold is the number of registers in the list, for every list |
| `ArmBlock.CountRegisters` | libopera/opera_arm.c:820-826 | the folded opcode half is the number both transfers use |
| `ArmBlock.OppositeReturns` | libopera/opera_arm.c:828-845 | for all four addressing modes the start address and written-back base of the opposite transfer are those of the first one and its base |
| `ArmBlock.WalkIsBlock` | libopera/opera_arm.c:828-845 | the block filled from its lowest address in register order is the register-by-register walk of the data sheet, up from the first or down from the last register, stepping after or before each access, and the written-back base is where the walk ends |
| `ArmBlock.WalkBack` | libopera/opera_arm.c:828-845 | the opposite walk visits the same words for the same registers and ends at the base |
| `ArmBlock.OverlayEnds` | libopera/opera_arm.c:1940-2037 | under the overlay low reads come from the ROM, a store to DRAM ends it, and afterwards memory holds what was stored; a store to VRAM does not end it |
| `ArmBlock.BaseIsStored` | libopera/opera_arm.c:948-987 | the base is stored as it was if it is the lowest listed register and as written back otherwise, the program counter eight on |
| `ArmBlock.Transfers.Store` | libopera/opera_arm.c:902-1018 | from the base, which reads eight on for the program counter, each listed register goes to the word the data sheet's walk comes to at its turn; the base is left where the walk ends, no other word changes and the overlay ends |
| `ArmBlock.Transfers.Load` | libopera/opera_arm.c:808-1018 | from the same base, each listed register, program counter and base included, is loaded from the word the walk comes to at its turn; an unlisted base is left where the walk ends and nothing else changes |
| `ArmBlock.Transfers.StoreThenLoad` | libopera/opera_arm.c:808-1018 | on every base but the program counter, STM with writeback then the opposite LDM with writeback gives every listed register what was stored of it, so all but a listed program counter or base come back, and the base with them, whatever happened to the others in between |
| `ArmBlock.Transfers.StoreThenLoadOnPc` | libopera/opera_arm.c:996-1018 | on the program counter the round trip fails exactly so: each transfer adds eight, the load reads two words further on than the store wrote, and the program counter ends sixteen on |
| `ArmFlags.SignBitOfWords` | libopera/opera_arm.c:1156-1178 | the bitwise carry and overflow formulas of both setters, taken at bit 31, are the sign-bit formulas the flag theorem is about |
| `ArmFlags.FormulasOfWords` | libopera/opera_arm.c:1156-1178 | on the values of any three registers, the four carry and overflow formulas of the flag theorem are bit 31 of the words the setters compute |
| `ArmFlags.FlagsAreTrue` | libopera/opera_arm.c:1145-1289 | for every operand pair and carry-in of SUB, RSB, ADD, ADC, SBC and RSC, C is carry or no-borrow, V is signed overflow and N, Z describe the wrapped result |
| `ArmFlags.CarryChains` | libopera/opera_arm.c:1145-1289 | ADD then ADC add two-word numbers, SUB then SBC and RSB then RSC subtract them, with the last carry the carry out or no borrow, for all operands |
| `ArmFlags.TableIsRight` | libopera/opera_arm.c:117-135 | the sixteen condition masks pass exactly on the named flag conditions |
| `ArmFlags.CompareDecides` | libopera/opera_arm.c:1298-1301 | after CMP a, b the conditions HI, LS, CS, CC decide the unsigned and GT, LE, GE, LT the signed order, both ways |
| `CelBits.BigReader.Read` | libopera/opera_bitop.c:53-97 | any width 1 to 32 from any bit position reads the next bits big-endian and advances by the width |
| `CelBits.BigReader.Skip` | libopera/opera_bitop.c:37-42 | skipping moves the position by that many bits, so it commutes with reading |
| `CelBits.BigReader.ReadAll` | libopera/opera_bitop.c:53-97 | reading a list of widths yields the pieces of the concatenated stream |
| `CelBits.ReadLRForm` | libopera/opera_madam.c:1646-1683 | the LR-form reader yields the same window over its interleaved byte map |
| `CelBits.RowsOfPair` | libopera/opera_madam.c:1646-1654 | over memory built by interleaving any two rows two bytes at a time, the LR-form byte map is the left row, and from two bytes on the right one |
| `CelClip.AxisExact` | libopera/opera_madam.c:3085-3183 | along one axis the steps that land on the screen are exactly those between the computed start and limit |
| `CelClip.LimitsAreExact` | libopera/opera_madam.c:3090-3124 | row and column limits of a unit orientation are exact, not merely safe |
| `CelClip.PixelExact` | libopera/opera_madam.c:3076-3189 | a source pixel is inside the window exactly when its destination lies in [0,clipx] x [0,clipy] |
| `CelClip.LineMapper.InitLineMap` | libopera/opera_madam.c:3076-3189 | the origin gets the half-pixel shifts of PixelPlaces; returns true only when no pixel is visible, otherwise the window is exact, for all eight unit orientations |
| `CelClip.PixelPlaces` | libopera/opera_madam.c:3085-3088 | after the shift, pixels go in whole steps from the origin, and of a mirrored step the first one lies just before it, for all eight orientations |
| `CelClip.MirrorCovers` | libopera/opera_madam.c:3085-3088 | a CEL with any one of its four steps reversed, set off by its size along it, covers its mirror image pixel for pixel |
| `CelClip.LineMapper.VisitPixels` | libopera/opera_madam.c:2542-2582 | the literal loop visits precisely the visible source pixels, each once, in order, at its own destination |
| `CelRow.TexelDrawLine` | libopera/opera_madam.c:3226-3257 | painting a run with the cached blend leaves the same memory as pixel-by-pixel blending, however the two frame buffers alias |
| `CelRow.SkipPixels` | libopera/opera_madam.c:1994-2025 | drops up to the requested pixels of a packet and leaves the reader at the first pixel kept |
| `CelRow.SkipColumns` | libopera/opera_madam.c:2125-2153 | the clip window's skip of part or all of a packet |
| `CelRow.DrawLiterals` | libopera/opera_madam.c:2174-2187 | literal pixels are painted at their own columns |
| `CelRow.DrawStretch` | libopera/opera_madam.c:2169-2205 | each packet type paints exactly its pixels of a stretch of columns |
| `CelRow.PacketInRow` | libopera/opera_madam.c:2110-2123 | the next packet's pixels are the next pixels of the expanded row |
| `CelRow.DrawPacket` | libopera/opera_madam.c:2112-2208 | one packet either paints its share of the window and leaves the row going on behind it, or fills the window |
| `CelRow.DrawRow` | libopera/opera_madam.c:2105-2209 | for every packet mix the loop paints exactly the expanded row with the first SKIPX dropped and restricted to the window, also where the row limit forces the end |
| `CelRow.DrawPackedRow` | libopera/opera_madam.c:2088-2211 | a row from its header on, with the next row's address |
| `CelPackets.RowSeen` | libopera/opera_madam.c:2110-2205 | a row laid out bit by bit as packets of literal, transparent and repeated pixels is expanded to the pixels they stand for, ended by an end packet or by the row running out |
| `CelPackets.ColumnsPainted` | libopera/opera_madam.c:1970-1986 | columns that go to different places: each opaque pixel is blended with what its place held and no other place changes |
| `CelPackets.DrawPackets` | libopera/opera_madam.c:2105-2209 | drawing such a row blends exactly the packets' pixels, without the first SKIPX and within the window, into their own places and changes nothing else |
| `CdromTransfer.AnyModeIsOk` | libopera/opera_cdrom.c:541-587 | every block mode page leaves sizes a transfer can use |
| `CdromCommand.BlockSizes` | libopera/opera_cdrom.c:541-587 | 2048 bytes unless the page says otherwise, 96 more with subcode and one with error byte; nothing of a sector of up to 2352 bytes is cut off |
| `CdromCommand.CommandDecides` | libopera/opera_cdrom.c:3590-3704 | a request is accepted exactly when its time is valid and the disc has all its sectors, counted from two seconds in; otherwise the status is raised at once and over every run no data comes and no sector is read |
| `CdromCommand.NothingToRead` | libopera/opera_cdrom.c:3590-3704 | without a spinning disc only the status changes; a request of no sectors brings no data |
| `CdromCommand.StatusDrains` | libopera/opera_cdrom.c:2755-2781 | a raised status stays up until the last of its bytes is read |
| `CdromTransfer.LoadKeeps` | libopera/opera_cdrom.c:1086-1161 | loading a sector moves bytes from the disc to the buffer; nothing is gained, lost or reordered |
| `CdromTransfer.ReadKeeps` | libopera/opera_cdrom.c:4349-4390 | a data read takes the first undelivered byte and no other |
| `CdromTransfer.StepConserves` | libopera/opera_cdrom.c:4298-4306 | each tick, poll, data read and status read keeps what is left to deliver plus what was delivered |
| `CdromTransfer.RunConserves` | libopera/opera_cdrom.c:1086-1161 | so does any interleaving of them |
| `CdromTransfer.CommandStarts` | libopera/opera_cdrom.c:3590-3704 | an accepted command leaves a transfer of exactly the requested sectors |
| `CdromTransfer.TransferDelivers` | libopera/opera_cdrom.c:3590-3704 | under any interleaving the bytes read are a prefix of sectors lba..lba+n-1, each padded to wire size; delivered + data_len + blocks*wire is constant; POLDT iff data_len > 0; POLST only when all is delivered; only those sectors are read, in order |
| `CdromTransfer.StatusWithLastByte` | libopera/opera_cdrom.c:858-870 | the completion status is raised by the read of the last byte and by no other event |
| `CdromTransfer.NeverStalls` | libopera/opera_cdrom.c:1086-1161 | some wait always makes the next byte available |
| `CdromPacing.TransferIsPaced` | libopera/opera_cdrom.c:815-848 | over every run after an accepted command on a data drive: no byte of sector k, from zero, is read or buffered before k + 1 sector times have passed, POLDT stays clear before the first, and any sector time spent waiting makes a byte available |
| `CdromReadAhead.ReadAheadBound` | libopera/opera_cdrom.c:989-1161 | over every run of events and commands in which a continuous follow-on comes only after all earlier sectors are loaded, sectors streamed never exceed elapsed frames + 49 |
| `CdromReadAhead.BurstNeverGated` | libopera/opera_cdrom.c:1032-1084 | with fewer than 48 sectors ahead the read-ahead gate never holds a burst back |
| `CdromReadAhead.LoadedPastGate` | libopera/opera_cdrom.c:1086-1161 | a sector is loaded only once the clock has passed its gate |
| `CdromReadAhead.GateReached` | libopera/opera_cdrom.c:1061-1084 | past the gate for k frames, playback has reached at least frame k - 1 (one division rounds against the other) |
| `CdromReadAhead.GateOpen` | libopera/opera_cdrom.c:1061-1084 | once playback has reached frame k the gate for k frames is open |
| `CdromReadAhead.FollowOnJump` | libopera/opera_cdrom.c:3650-3680 | exactly how far an early follow-on overshoots, and exactly when the bound still holds after one |
| `CdromReadAhead.BoundIsTight` | libopera/opera_cdrom.c:989-1161 | from every accepted audio command of at least 49 sectors that starts a stream at 12.5 MHz, a run of polls and reads that reaches the bound exactly |
| `CdromDrive.CdDrive.AudioCanBurst` | libopera/opera_cdrom.c:1032-1059 | the burst decision with the latch it updates |
| `CdromDrive.CdDrive.LoadNextIfReady` | libopera/opera_cdrom.c:1086-1161 | the loader in place; during a transfer the bytes still to be delivered stay the same |
| `CdromDrive.CdDrive.FifoGetData` | libopera/opera_cdrom.c:4349-4390 | the data FIFO in place; during a transfer the byte returned is the first of those still to be delivered, and finishing raises the status |
| `CdromDrive.CdDrive.FifoGetStatus` | libopera/opera_cdrom.c:2755-2781 | the status FIFO in place |
| `CdromDrive.CdDrive.CmdReadData` | libopera/opera_cdrom.c:3590-3704 | the command in place with both rejections; accepted, it leaves exactly the requested sectors to be delivered |
| `CdromDrive.CdDrive.Transfer` | libopera/opera_cdrom.c:4297-4390 | a host that issues the command and then makes any moves (waits, polls, data and status reads) has read a prefix of the requested sectors, and all of them once the status is raised |
| `CdromDrive.CdDrive.ReadSectors` | libopera/opera_cdrom.c:4297-4390 | a host that polls, reads what is there and pauses otherwise ends with exactly the requested sectors and the status raised, however short its pauses |
| `CdromReload.LateSchedule` | libopera/opera_cdrom.c:815-831 | after a passed deadline the next sector loads the same and the one after it is scheduled later, by exactly how much |
| `CdromReload.ProbeShows` | libopera/opera_cdrom.c:815-831 | what a host sees of the second sector's schedule |
| `CdromReload.ReloadIsInvisible` | libopera/opera_cdrom.c:2011-2122 | for every drive that is not streaming audio, the host sees the same data bits over all runs after a save and load as without, if and only if no deadline had passed, fewer than two sectors were to go, sectors take no time or the drive is in reset; the bytes read are then the same too |
| `CdromReload.ReloadIsInvisibleToHost` | libopera/opera_cdrom.c:2011-2122 | the same if and only if for data drives over runs with further commands |
| `CdromReload.UnburstAtGate` | libopera/opera_cdrom.c:1032-1084 | a streamed sector that the burst does not load passes the read-ahead gate only in the gate's own cycle |
| `CdromReload.AudioReload` | libopera/opera_cdrom.c:2011-2122 | a stream shows the same data bits and bytes after a save and load, passed deadline or not, over every run that avoids the cycles in which a gate opens |
| `ClioTimers.ScanOfChain` | libopera/opera_clio.c:901-946 | what a whole scan does to one timer of a chain, by the timers below it |
| `ClioTimers.ChainKept` | libopera/opera_clio.c:888-946 | a scan keeps a chain a chain |
| `ClioTimers.ScanCountsDown` | libopera/opera_clio.c:901-946 | a full scan counts the combined mixed-radix value down by one modulo the product of (reload + 1) |
| `ClioTimers.ScansCount` | libopera/opera_clio.c:901-946 | n scans count it down by n modulo that product |
| `ClioTimers.InterruptOnUnderflow` | libopera/opera_clio.c:901-946 | an odd timer interrupts on a scan exactly when it and all lower timers of its chain stood at zero |
| `ClioOneShot.ScanTakesOne` | libopera/opera_clio.c:915-945 | a cascade ending in a timer without reload: while its combined value is not zero a scan takes one off it and raises nothing for that timer |
| `ClioOneShot.OneShotFires` | libopera/opera_clio.c:925-942 | from combined value v, v scans raise nothing, scan v + 1 raises the interrupt and leaves 0xFFFF and disabled, and so any number of later scans; a lone timer takes its own count |
| `ClioOneShot.DisabledStays` | libopera/opera_clio.c:915-945 | over any number of scans a disabled timer keeps its count and flags and raises no interrupt |
| `ClioOneShot.LowerGoesOn` | libopera/opera_clio.c:915-945 | the chain below a one-shot timer goes on counting for ever |
| `ClioTimers.Clio.TimerExecute` | libopera/opera_clio.c:901-946 | one slot in place |
| `ClioTimers.Clio.RunScan` | libopera/opera_clio.c:901-946 | sixteen slots in place count every chain of the timers down by one |
| `Clock.SlotsCyclic` | libopera/opera_clock.c:317-342 | slots are handed out 0..15 cyclically over any run of pushes and frequency, slack and region changes |
| `Clock.CyclesAreScans` | libopera/opera_clock.c:317-342 | sixteen slots from slot zero are one scan of the timers |
| `Clock.ClockedChain` | libopera/opera_clock.c:317-342 | timers driven by the clock through any run that hands out 16n slots have counted a chain down by n |
| `Clock.RatesInRange` | libopera/opera_clock.c:100-149 | for 1411200 Hz to 50 MHz all rates are positive and small enough for the 16.16 accumulators |
| `Clock.ExactCounts` | libopera/opera_clock.c:293-355 | n steps from reset give exactly floor(n*32*65536/rate) DSP triggers and lines, and no accumulator comes near overflow |
| `ClockRates.CountsKeepTime` | libopera/opera_clock.c:100-162 | over any number of steps the triggers are 44100 and the lines fieldRate * fieldSize / 65536 for every freq cycles, never fewer, and at most one more plus one for every whole period counted; within a second, to within one |
| `ClockRates.SlotsKeepTime` | libopera/opera_clock.c:317-342 | over any number of steps exactly as many timer slots are handed out as fit their intervals, the gap before each next round included |
| `ClockRates.ElapsedRounds` | libopera/opera_clock.c:317-342 | n rounds and k slots take n times fifteen slots and a gap, and k slots more |
| `ClockRates.RoundTakes` | libopera/opera_clock.c:16-26 | a round takes 64 ticks of the 25 MHz clock and the slack, to within sixteen 65536ths of a cycle |
| `Clock.SlowClock` | libopera/opera_clock.c:305-315 | from 1 MHz to below 1411200 Hz each step gives exactly one DSP trigger while the accumulator's backlog grows evenly, and none once it wraps |
| `Clock.SlowWraps` | libopera/opera_clock.c:344-355 | the step in which the DSP accumulator overflows gives no trigger and leaves it far below zero |
| `Clock.SlowSilence` | libopera/opera_clock.c:305-315 | then no trigger comes until it has climbed back, step by step, and the one that comes leaves a backlog of less than a step, from which the regular triggers go on |
| `Clock.Machine.InternalFrame` | libopera/opera_3do.c:174-204 | one clock step in place; the timer drain loop ends |
| `Clock.Machine.ProcessFrame` | libopera/opera_3do.c:206-245 | ARM cycles executed plus the old remainder equal 32*steps plus the new remainder, over any frame |
| `StateBytes.LeRoundTrip` | libopera/opera_state.c:159-241 | a little-endian integer that fits its width is read back unchanged |
| `StateBytes.LowByteFirst` | libopera/opera_state.c:451-562 | the bytes of one-, two- and four-byte integers, low byte first |
| `StateBytes.FromLeRoundTrip` | libopera/opera_state.c:451-562 | any bytes are the encoding of what is read from them, which fits the width |
| `StateBytes.ParseEncode` | libopera/opera_state.c:430-652 | parsing the fields of a payload from their encoding gives the fields back and stops right behind them |
| `StateBytes.EncodeParse` | libopera/opera_state.c:413-652 | parsing succeeds exactly when enough bytes remain, and then those bytes encode what was parsed |
| `StateStreams.UnchunkChunk` | libopera/opera_state.c:342-353 | a chunk is read back as its payload, whatever follows |
| `StateStreams.ChunkUnchunk` | libopera/opera_state.c:654-679 | bytes accepted as a chunk are the chunk of the payload found |
| `StateStreams.Writer.Reserve` | libopera/opera_state.c:132-157 | fails on 32-bit overflow before moving, fails past the buffer after moving, never fails on size without a buffer |
| `StateStreams.Writer.WriteBytes` | libopera/opera_state.c:112-130 | overwrites exactly its own bytes, or nothing when it does not fit |
| `StateStreams.Writer.WriteUint` | libopera/opera_state.c:159-241 | writes the little-endian bytes, low byte first |
| `StateStreams.Writer.WriteFields` | libopera/opera_state.c:112-341 | succeeds exactly when all fields fit, and then the buffer holds their encoding and nothing else changed |
| `StateStreams.PayloadSize` | libopera/opera_clock.c:88-98 | the NULL-buffer pass yields the length of what a writing pass writes |
| `StateStreams.SaveChunk` | libopera/opera_clock.c:189-204 | measure-then-write leaves exactly the chunk at its place |
| `StateStreams.Reader.SkipBytes` | libopera/opera_state.c:413-428 | moves exactly when enough bytes remain, else fails in place |
| `StateStreams.Reader.ReadBytes` | libopera/opera_state.c:430-449 | returns the next bytes exactly when enough remain |
| `StateStreams.Reader.ReadUint` | libopera/opera_state.c:451-562 | returns the little-endian value of the next bytes exactly when enough remain |
| `StateStreams.Reader.ReadFields` | libopera/opera_state.c:430-652 | the chained reads succeed exactly when Parse does and leave the reader behind the fields |
| `StateStreams.Reader.ReadChunk` | libopera/opera_state.c:654-679 | finds the payload exactly when name and length fit, and moves past it |
| `StateParts.ConsistentKept` | libopera/opera_clock.c:151-162 | every clock operation keeps the five rates equal to the ones recalculated from frequency, slack and region |
| `StateParts.ClockRestored` | libopera/opera_clock.c:206-245 | a consistent clock comes back whole from its fields, rates recalculated |
| `StateParts.PartRestored` | libopera/opera_3do.c:433-467 | for every component the stored fields are accepted and install exactly that component, ARM limits worked out from the memory at hand |
| `StateParts.RamFits` | libopera/opera_mem.c:298-303 | every valid configuration's RAM fits the allocation |
| `StateCdrom.CdDryRun` | libopera/opera_cdrom.c:2614-2651 | validating a drive chunk changes no drive, and what it accepts loads with the same length into any drive at any cycle |
| `StateCdrom.OlderLayoutOnlyLoads` | libopera/opera_cdrom.c:2639-2649 | a chunk of any other size is never validated, though an older layout may load |
| `StateCdrom.DevicesDryRun` | libopera/opera_xbus.c:612-638 | the same over the whole device loop, both ways when no older layout is accepted |
| `StateCdrom.DryRunIgnoresClock` | libopera/opera_cdrom.c:2579-2585 | validation does not depend on the cycle count |
| `StateCdrom.DataRestored` | libopera/opera_cdrom.c:2011-2122 | stored deadlines come back on their absolute cycles; one already due comes back as due |
| `StateCdrom.CdRestored` | libopera/opera_cdrom.c:2389-2411 | a saved drive chunk loads back to the drive it was saved from |
| `StateCdrom.DevicesRestored` | libopera/opera_xbus.c:484-509 | the saved device list of any set of occupied slots loads back, using up all its bytes |
| `StateTheorems.PartDryRun` | libopera/opera_3do.c:476-498 | validating a component changes nothing and returns what loading returns on any machine, optional tails and skipped memory included |
| `StateTheorems.XbusDryRun` | libopera/opera_xbus.c:589-643 | the same for the bus chunk with its nested drives |
| `StateTheorems.DryRunChangesNothing` | libopera/opera_3do.c:718-736 | a validation leaves the whole machine as it was, accepted or not |
| `StateTheorems.DryRunAgrees` | libopera/opera_3do.c:580-681 | a dry run and a load of the same bytes agree on the outcome, for any two machines |
| `StateTheorems.ValidatedLoads` | libopera/opera_3do.c:718-765 | what opera_3do_state_validate accepts, opera_3do_state_load loads to its full size on any machine with the same drives |
| `StateTheorems.ValidateIsExact` | libopera/opera_3do.c:718-765 | without the two older drive layouts, validation accepts exactly the format 3 and 4 states that load |
| `StateTheorems.MemRestored` | libopera/opera_mem.c:320-339 | a MEM2 chunk restores the configuration, the RAM in use and NVRAM, and leaves ROMs and unused RAM alone |
| `StateTheorems.SaveFits` | libopera/opera_3do.c:390-425 | the whole state fits 32 bits, so no size sum wraps |
| `StateTheorems.SaveThenLoad` | libopera/opera_3do.c:433-467 | a saved state validates, loads in full on any machine, and restores it to the saved one |
| `StateTheorems.RestoredMatches` | libopera/opera_3do.c:580-681 | restored component by component: all stored fields, clock rates, overlay limits and every RAM byte in use; ROMs and the rest of RAM stay and the joypad bus starts afresh |
| `StateTheorems.DriveRestored` | libopera/opera_cdrom.c:2557-2612 | with its reset bit clear the drive comes back whole if and only if no deadline had passed, the audio clock had not started in the future and saving was not blocked |
| `StateDrive.LoadSettles` | libopera/opera_cdrom.c:2087-2122 | the drive of the transfer machine after a load is the saved one with passed deadlines dropped and nothing else changed, because the clock is restored first |
| `StateDrive.LoadIsInvisible` | libopera/opera_cdrom.c:2087-2122 | of a loaded machine's drive that is not streaming audio, on any disc at any speed: same data bits over all runs if and only if no passed deadline was lost with two sectors to go, and then the same bytes |
| `StateDrive.LoadIsInvisibleToHost` | libopera/opera_cdrom.c:2087-2122 | the same if and only if for data drives over runs with further commands |
| `StateDrive.LoadKeepsStream` | libopera/opera_cdrom.c:2087-2122 | a loaded audio stream shows the same bits and bytes over every run that avoids the cycles in which a gate opens |
| `StateTheorems.LoadedIsCoherent` | libopera/opera_arm.c:165-179 | whatever bytes load, the memory configuration is valid, the overlay limits fit the new memory sizes and the clock rates are recalculated |
| `StateFormats.LimitsAreMap` | libopera/opera_arm.c:158-205 | the overlay limits make the comparisons of the memory paths the memory map: ROM below 48 MB and the overlay ended by a write to DRAM while it is on, DRAM and VRAM by their sizes after it |
| `StateFormats.LoadedMap` | libopera/opera_arm.c:158-205 | whatever bytes load, the CPU then sees that map |
| `StateFormats.ArmLoads` | libopera/opera_arm.c:292-356 | an ARM chunk put together from its registers loads as those, with and without the overlay byte |
| `StateFormats.ClockLoads` | libopera/opera_clock.c:206-245 | a clock chunk put together from its fields loads as those, and is refused exactly on a frequency, slot, flag or field size out of range |
| `StateFormats.RuntimeLoads` | libopera/opera_3do.c:307-333 | the same for the runtime chunk, refused for a field other than 0 and 1 |
| `StateFormats.MadamLoads` | libopera/opera_madam.c:661-708 | the same for the MADAM chunk with its timing fields, refused for a pending flag that is none |
| `StateFormats.OldMadamLoads` | libopera/opera_madam.c:661-708 | a MADAM chunk without them loads with a draw pending exactly in states 2 and 3 and nothing busy |
| `StateFormats.OldVdlpLoads` | libopera/opera_vdlp.c:987-1054 | a VDLP chunk with a zero force line restarts from the last programmed head on line 5, or 8 on PAL |
| `StateFormats.OldDspLoads` | libopera/opera_dsp.c:641-689 | a DSPP chunk loads as its live fields, the decode tables stepped over |
| `StateFormats.OldMemLoads` | libopera/opera_mem.c:378-419 | an old MEM chunk put together from RAM, BIOS, font and NVRAM loads exactly those, with the sizes of its configuration |
| `StateFormats.DriveTaken` | libopera/opera_cdrom.c:1937-1975 | a drive chunk put together field by field is taken exactly when its speed and its five sizes are in range, validating and loading alike |
| `StateFormats.DeadlinesLoaded` | libopera/opera_cdrom.c:2031-2095 | whatever a file holds, deadlines and clock starts are taken relative to the cycle count and stay in its range |
| `StateTheorems.TornLoad` | libopera/opera_3do.c:580-681 | from every machine, a rejected state that has already changed it |
| `StateRefusal.PartsInstalled` | libopera/opera_3do.c:476-498 | the components accepted before the first refusal are installed, whichever machine loads them, and the refusing one changes nothing |
| `StateRefusal.UnchangedExactly` | libopera/opera_3do.c:580-681 | that leaves the machine as it was if and only if each of them stored what it already held |
| `StateRefusal.RefusedLoad` | libopera/opera_3do.c:580-681 | exactly what a refused load leaves: nothing changed on a bad header, the accepted components installed otherwise, and once the bus fields parse also those and the drives as far as the device loop got |
| `StateRefusal.RefusedByLoad` | libopera/opera_3do.c:738-765 | the same for every buffer of the chunked formats, and nothing changed for an unknown version |
| `StateRefusal.RefusedUnchanged` | libopera/opera_3do.c:580-681 | a load refused before the bus leaves the machine unchanged iff every accepted component stored what it held, in particular when the first is refused |
| `StateLoader.Console.LoadFixed` | libopera/opera_arm.c:331-358 | the common component loader: chunk, fields, optional tail, nothing left, checks, then install unless validating |
| `StateLoader.Console.LoadMem2` | libopera/opera_mem.c:421-459 | MEM2: checks first, then step over when validating or copy |
| `StateLoader.Console.LoadMem` | libopera/opera_mem.c:378-419 | the older MEM chunk with both ROMs |
| `StateLoader.Console.LoadCdV2` | libopera/opera_cdrom.c:2557-2612 | drive chunk version 2, device checks on a copy when validating |
| `StateLoader.Console.LoadCd` | libopera/opera_cdrom.c:2614-2651 | version 2 by size, then the older layouts unless validating |
| `StateLoader.Console.LoadXbus` | libopera/opera_xbus.c:589-643 | bus fields, then the device loop, then nothing left |
| `StateLoader.Console.LoadParts` | libopera/opera_3do.c:476-498 | the load steps in order with the overlay limits set again after memory |
| `StateLoader.Console.LoadChunked` | libopera/opera_3do.c:580-681 | header, components, bus, and every byte used |
| `StateLoader.Console.Validate` | libopera/opera_3do.c:718-736 | returns the verdict of the specification and leaves the machine unchanged |
| `StateLoader.Console.Load` | libopera/opera_3do.c:738-765 | dispatch on the version |
| `StateLoader.WriteXbus` | libopera/opera_xbus.c:457-509 | writes or measures the bus payload with each occupied slot's drive; fails exactly when a drive refuses |
| `StateLoader.StateSize` | libopera/opera_3do.c:390-431 | the sizing pass yields the number of bytes a save writes, or zero when saving is refused |
| `StateLoader.SaveState` | libopera/opera_3do.c:433-474 | writes exactly the state at the start of the buffer, or nothing at all |
| `StateExample.FreshIsSaveable` | libopera/opera_3do.c:85-140 | a machine just after reset meets the conditions of SaveThenLoad |
| `CueLayout.OpenCue` | retro_cdimage.c:787-884 | fails exactly on a missing file or unknown format; otherwise computes offsets, file bases, starts and lengths |
| `CueLayout.TrackForSector` | retro_cdimage.c:1056-1087 | returns the first track holding the sector, or none when no track does |
| `CueLayout.OffsetIsIdeal` | retro_cdimage.c:825-840 | on regular cues no 32-bit product overflows, so offsets are the sums of the preceding spans |
| `CueLayout.TrackReach` | retro_cdimage.c:843-866 | a track's sectors fill its bytes up to the next track or to less than a sector before the end of the file |
| `CueLayout.SectorInFile` | retro_cdimage.c:1308-1312 | every sector's byte range lies inside its file |
| `CueLayout.SectorsDisjoint` | retro_cdimage.c:1308-1312 | ranges of different sectors of a file do not overlap |
| `CueLayout.SectorsAdjacent` | retro_cdimage.c:1308-1312 | consecutive sectors have adjacent ranges, or the second starts a later file |
| `CueLayout.LayoutIsExact` | retro_cdimage.c:868-884 | over regular cues of any number of files, all sectors lie inside their files if and only if no later file starts with a pregap |
| `CueLayout.PregapLeavesFile` | retro_cdimage.c:868-884 | for every cue with such a pregap, a sector whose range leaves its file |
| `CueLayout.MixedCueIsRegular` | retro_cdimage.c:787-884 | a concrete two-file cue with data and audio meets the conditions of the layout results |
| `CueLayout.PregapCueIsRegular` | retro_cdimage.c:787-884 | a concrete two-file cue with a pregap, to which PregapLeavesFile applies |
| `CueLayout.ReadInsideSector` | retro_cdimage.c:1308-1312 | a read stays inside its sector exactly when it takes the whole sector or ends with it |
| `CueLayout.ReadSector` | retro_cdimage.c:1246-1314 | the extent asked of the file is that of the first track holding the sector; outside all tracks a single file is read raw and several are not |
| `CueLayout.ReadStaysInside` | retro_cdimage.c:1276-1314 | every sector from the first start on is found in one track only, and a whole or user-data read stays in its range and its file |
| `CueBurn.SectorParts` | retro_cdimage.c:1308-1312 | a sector assembled from sync, header, subheader, user data and check bytes has its format's size and its user data at the format's offset |
| `CueBurn.OffsetWhereBurned` | retro_cdimage.c:825-840 | in files put together from the sectors of their tracks, the offset worked out for a track is where its INDEX 01 was burned |
| `CueBurn.ReadBack` | retro_cdimage.c:1276-1314 | through the opened image a 2048-byte read of a burned data sector returns its user data and a whole read the whole sector, whatever tracks and formats share the file |
| `CueBurn.EveryAddressNamed` | retro_cdimage.c:843-884 | without pregaps in later files every address a track holds names one of its burned sectors |
| `CueBurn.RawReadBack` | retro_cdimage.c:1247-1274 | a file of sectors without tracks is read back the same way |
| `CueBurn.TwoSectorsBurned` | retro_cdimage.c:787-884 | a concrete burned cue |
| `DiscTime.MsfRoundTrip` | libopera/opera_cdrom.c:1664-1701 | an address comes back from minutes, seconds and frames, and those are in range |
| `DiscTime.MsfInverse` | libopera/opera_cdrom.c:1664-1701 | and a valid time past the lead-in comes back from its address |
| `DiscTime.Landmarks` | libopera/opera_cdrom.c:1664-1701 | address zero is 00:02:00, and a minute has 60 seconds of 75 frames |
| `CueToc.GetToc` | retro_cdimage.c:976-1053 | the table after all tracks, with first and last numbers and the disc id |
| `CueToc.DiscIsXa` | retro_cdimage.c:1029-1033 | the disc id is XA if and only if a listed track is in mode 2 |
| `CueToc.FilledLists` | retro_cdimage.c:976-1053 | with increasing track numbers the table lists exactly the image's tracks, each under its number at its own start with control 5 for data and 1 for audio |
| `CueToc.TrackForLba` | libopera/opera_cdrom.c:405-456 | the drive's scan over the table, with the start of the track it finds |
| `CueToc.TocAgrees` | libopera/opera_cdrom.c:405-456 | the track found through the table's MSF round trip is the one the image lookup returns |
| `CueToc.TocBeforeFirst` | libopera/opera_cdrom.c:405-456 | ahead of the first track the drive answers the first track while the image finds none |
| `CueToc.RegularIsNumbered` | retro_cdimage.c:868-884 | images of regular cues with increasing track numbers meet the conditions of TocAgrees |
| `CueToc.ImageFile.ReadAt` | retro_cdimage.c:1103-1144 | skipping the seek when the remembered position matches never changes the bytes read |

## Left out

- The packed tree reader of the Huffman decoder, whose lengths are coded by a smaller tree.
- Reader counters of the Huffman bit reader (`offset`, `used`) are unbounded; the source's are 64 bits wide.
- ArmBanks.ExceptionRoundTrip: the HLE path of software interrupts is not part of this model; cycle counts of exceptions are not either.
- ArmBlock.Transfers.Store: no S bit, no empty list and only blocks in DRAM, since elsewhere writes reach devices; instruction timing is not modelled.
- ArmBlock.Transfers.Load: the same limits as the store.
- ArmFlags.FlagsAreTrue: the logical operations and the shifter's carry are not part of this model.
- CelClip.LineMapper.InitLineMap: coordinates are unbounded integers, so the result is about CELs whose coordinates do not overflow 16.16.
- CelClip.LineMapper.VisitPixels: records where each pixel goes; decoding the pixels is in CelRow.
- CelRow.DrawRow: the pixel decoder, the blender and the address maps are parameters, the CEL source is not overwritten by its own painting, and the reader's 32-bit address arithmetic does not wrap.
- CelRow.DrawPackedRow: one row; the loop over rows only repeats it with the next address and position.
- Scaled and arbitrary CEL mappings, the quad test, pixel blending and the matrix engine: no independent specification or floating point.
- CdromTransfer.TransferDelivers: status byte values, statistics counters and the drive's other commands are not modelled; the time a sector takes is a parameter, and cycle counts do not wrap at 64 bits.
- CdromDrive.CdDrive.Transfer: the host reads the data FIFO only when a poll shows data, since a read of the empty FIFO returns a zero it cannot tell from data.
- CdromReload.AudioReload: says nothing of a run with an event in the very cycle in which a read-ahead gate opens.
- CdromReadAhead.ReadAheadBound: needs a constant CPU frequency, and follow-ons issued only once the earlier sectors are loaded; CdromReadAhead.FollowOnJump says exactly what happens otherwise.
- ClioTimers.Clio.TimerExecute: the control nibbles of two packed registers are kept as one record of flags per timer.
- Clock.Machine.ProcessFrame: ARM instruction costs are a parameter; DSP, VDLP and XBUS calls made per step have no effect on the clock and are not part of it.
- StateTheorems.SaveThenLoad: a drive loaded with its reset bit set goes through a local reset, which is a parameter, and so are what a failing drive load leaves behind and the older drive layouts.
- StateTheorems.RestoredMatches: RAM past what the configuration uses and the ROMs stay the running machine's; CLIO's ROM selection after a load is not modelled; the ODE session a load resets is not part of the drive here.
- StateLoader.Console.Load: the loader of the first state format is a parameter; the second format is loaded but never validated, as in the source.
- StateLoader.Console.LoadFixed: CLIO, DSP, SPORT and VDLP state is kept as the fields of their chunks; fields of one width in a row are one array.
- A big-endian host, failing allocation and logging.
- CueLayout.OpenCue: disc addresses are unbounded; cue parsing and opening the files come before it.
- CueLayout.ReadSector: no audio byte swap.
- CueToc.GetToc: the table starts cleared, and the drive's sanitizing pass over an already valid table is not modelled.
- CHD images, ISO probing, the ODE commands, the DSP, the VDLP renderers, the SWI emulation and the libretro front end.
