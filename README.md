# icyt-tfds example generation, modelled in Dafny

icyt-tfds packages imaging-flow-cytometry archives as TensorFlow Datasets. Each
dataset adapter has three parts:

- a builder configuration, which accepts a fixed list of selections and raises
  `ValueError` for any other;
- a generator, which walks the archive entry by entry, matches each file name
  against a regular expression, and skips, yields or raises;
- a slicing step, which cuts the planes of the decoded TIFF into named channel and
  mask images.

This project models four adapters.

- **poldiv**: packed 16-bit images with 7, 9 or 12 channels. The class is the
  lower-cased first part of the file name, and `others` is skipped. In the
  `all-genus` configuration, the class is replaced by the genus of the first
  matching row of the species-to-genus table.
- **romania**: the same plane layout. The species is the directory name. The
  `metabarcoding` configuration keeps only the sample paths that start with an
  entry of the (right-stripped) metabarcoding list.
- **phytoplankton**: twelve-plane images and three output splits (`train`,
  `valid`, `test`). Each split re-reads the whole archive and keeps its replicate
  and its directory (`train`, `validation`, `test`).
- **blood_quality**: one entry per channel of a cell. A pending map holds, for
  each cell base name, the channel images seen so far. The entry that brings a
  cell to three channels yields the cell and removes it from the map.

How the model is organised:

- **`Wrappers`**: `Option` and `Result`.
- **`Text`**: the Python string operations the adapters use: `lower`, `title`,
  `startswith` with a tuple, `in`, `rstrip`, `str` of an integer, and the `repr`
  of a list.
- **`Slicing`**: the packed-image plane tables shared by poldiv and romania.
  The two source files contain identical dict comprehensions, and both modules
  call the one `SlicePacked`.
- **`Stream`**: a generation pass as a fold. Each entry is skipped, yields one
  record, or raises. `Run` gives the records yielded before the first raise,
  plus that error. `Generate` is the generator loop, proved equal to `Run`.
- **The four dataset modules**: each has its configuration constructor and its
  per-entry step. Each step's ensures covers every branch; for
  `BloodQuality.Step`, a set of lemmas does. They also state what
  is proved about a whole pass.
- **`BloodQuality`**: holds the grouper's pure transition function `Step` and
  the fold `Run`. It also holds a `Grouper` class whose `pending` map the `Add`
  method updates in place, proved equal to `Step`. `GenerateExamples` is the
  loop over the archive that drives a `Grouper`.

How inputs are represented:

- A decoded image is the sequence of its planes (`img[:, :, i]` is `img[i]`),
  and pixel values are an opaque type parameter.
- The regular-expression match of each entry is an input: its groups, or `None`
  when the name does not match.
- The archive is a finite sequence of entries.

## Model

| member | source | states |
|---|---|---|
| Text.Lower | poldiv/poldiv.py:126 | `lower()` keeps the length and lower-cases each ASCII letter, leaving every other character |
| Text.Title | blood_quality/blood_quality.py:87 | `title()` upper-cases a cased character that starts a word and lower-cases one inside a word |
| Text.StartsWithAny | romania/romania.py:111 | `startswith(tuple(prefixes))` holds iff some prefix of the tuple starts the string, so an empty tuple starts nothing |
| Text.RStrip | romania/romania.py:102 | `rstrip()` gives a prefix of the line that does not end in white space, and everything cut off is white space |
| Text.RStripUnique | romania/romania.py:102 | those three properties determine the stripped line |
| Text.RStripIdempotent | romania/romania.py:102 | stripping twice is stripping once |
| Text.Str | poldiv/poldiv.py:141 | `str(n)` is a non-empty string of decimal digits, one digit exactly when n < 10, and no leading zero |
| Text.StrSpellsValue | poldiv/poldiv.py:141 | `int(str(n)) == n`: read back as a decimal numeral, the string is the number |
| Text.StrInjective | poldiv/poldiv.py:141 | distinct numbers have distinct decimal strings, so the id comprehensions never collide |
| Text.ListReprPair | poldiv/poldiv.py:37 | the `%s` of a two-element list of strings is `['a', 'b']` |
| Slicing.PackedIdsSpelled | poldiv/poldiv.py:70-73 | the schema's channel and mask ids are exactly "1" to "6" and "9" |
| Slicing.RangeIds | poldiv/poldiv.py:141-150 | `{str(i + shift): img[:, :, i] for i in range(lo, hi)}` has the keys `str(lo + shift)` to `str(hi + shift - 1)`, and `str(n)` takes plane `n - shift` |
| Slicing.ChannelTable | poldiv/poldiv.py:141-142 | channel n (1 to 6) takes plane n-1 and channel 9 takes the given plane; the keys are the schema's |
| Slicing.MaskTable | poldiv/poldiv.py:143-144 | mask n (1 to 6) takes plane first+n-1 and mask 9 takes the given plane; the keys are the schema's |
| Slicing.HalfPlanes | poldiv/poldiv.py:138 | the channel count is half the plane count, by true division |
| Slicing.PackedTable | poldiv/poldiv.py:138-153 | there is a table iff the plane count is 14, 18 or 24. For 14 or 18 planes: channel 9 is plane 6, mask n is plane n+6, mask 9 is plane 13. For 24 planes: channel 9 is plane 8, mask n is plane n+11, mask 9 is plane 20. Every index is in range |
| Slicing.Slice | poldiv/poldiv.py:141 | id k takes the plane at the table's index for k |
| Slicing.SlicePacked | poldiv/poldiv.py:137-153 | slicing succeeds iff the image has 14, 18 or 24 planes, and the channel and mask key sets are the schema's |
| Slicing.SlicePackedPlanes | poldiv/poldiv.py:140-150 | which plane of the image each channel and mask id holds, for both layouts |
| Stream.Run | poldiv/poldiv.py:121-160 | a pass yields at most one record per entry, and ends without an error only when no entry raises; what it yields is stated by `RunIsEmittedBeforeFirstFailure` |
| Stream.FirstFailure | poldiv/poldiv.py:121-160 | the position of the first entry that raises: no entry before it raises |
| Stream.RunIsEmittedBeforeFirstFailure | poldiv/poldiv.py:121-160 | a pass yields exactly the records of the yielding entries before the first raise, and ends with that raise's error |
| Stream.RunAppend | poldiv/poldiv.py:121-160 | a pass over two streams in a row is the pass over the first, continued by the second only if the first did not raise |
| Stream.RunRecordsAreYielded | poldiv/poldiv.py:121-160 | every record of a pass is the record of one of its entries |
| Stream.Generate | poldiv/poldiv.py:121-160 | the loop with `continue`, `yield` and `raise` computes the pass `Run` |
| Poldiv.SelectionMessageSpelled | poldiv/poldiv.py:37 | the ValueError message is `Selection must be one of ['all-species', 'all-genus']` |
| Poldiv.NewConfig | poldiv/poldiv.py:22-37 | a configuration is built iff the selection is `all-species` or `all-genus`; any other selection fails with that message |
| Poldiv.EveryConfigStartsWithAll | poldiv/poldiv.py:122 | every configuration takes the `startswith('all')` branch |
| Poldiv.GenusMode | poldiv/poldiv.py:130 | no contract of its own: `'genus' in selection`; `GenusModeIsAllGenus` states which configuration it holds for |
| Poldiv.GenusModeIsAllGenus | poldiv/poldiv.py:130 | `'genus' in selection` holds for exactly the `all-genus` configuration |
| Poldiv.FindGenus | poldiv/poldiv.py:131 | the genus of the first table row for the class, or nothing iff no row has the class |
| Poldiv.ClassLabel | poldiv/poldiv.py:130-135 | the label is found iff the configuration labels by species or the table has the class. Species mode: the class itself. Genus mode: the genus of the first table row for the class. Otherwise the genus-not-found error for that class |
| Poldiv.ProcessEntry | poldiv/poldiv.py:121-159 | No match: AssertionError with the file name. Class `others`: skipped. Genus mode with the class missing from the table: the genus-not-found error. Wrong plane count: the channel-count error with the file name. Otherwise a record with the schema's ids, the sliced planes, the file name, and the class label (the lower-cased class, or the genus of its first table row) |
| Poldiv.RecordsFollowSchema | poldiv/poldiv.py:155-160 | every record has the schema's ids and the file name of an archive entry |
| Poldiv.GenerateExamples | poldiv/poldiv.py:113-160 | the generator computes the pass over the archive, and every record follows the schema |
| Poldiv.AsWrittenMessageOmitsClass | poldiv/poldiv.py:135 | as written, the genus-not-found message is the same for the classes `betula` and `alnus`, and does not contain `betula` |
| Poldiv.GenusNotFoundMessage | poldiv/poldiv.py:135 | the intended message ends with the class, so it contains the class |
| Poldiv.GenusNotFoundMessageNamesClass | poldiv/poldiv.py:135 | distinct classes have distinct intended messages |
| Romania.SelectionMessageSpelled | romania/romania.py:30 | the ValueError message is `Selection must be one of ['all', 'metabarcoding']` |
| Romania.NewConfig | romania/romania.py:15-40 | a configuration is built iff the selection is `all` or `metabarcoding`, keeping selection and dataset; any other selection fails with that message |
| Romania.AllowList | romania/romania.py:100-102 | the allow-list is the lines of the metabarcoding list, each right-stripped, in order |
| Romania.ProcessEntry | romania/romania.py:104-140 | No match: fatal. In metabarcoding mode, a sample path that starts with no allow-list entry: skipped, and nothing else is skipped. Wrong plane count: the channel-count error with the file name. Otherwise a record with the schema's ids, the sliced planes, the file name, and the species directory unchanged |
| Romania.AllKeepsEveryEntry | romania/romania.py:110-112 | the `all` configuration skips no entry |
| Romania.BlankLineKeepsEveryEntry | romania/romania.py:102-112 | a blank (white-space only) line in the metabarcoding list strips to the empty prefix, and then no entry is skipped |
| Romania.EmptyListYieldsNothing | romania/romania.py:110-112 | with an empty metabarcoding list, a metabarcoding pass yields no record |
| Romania.RecordsComeFromMatchedEntries | romania/romania.py:110-140 | every record has the schema's ids and the file name and species of a matched entry; in metabarcoding mode that entry's sample path starts with an allow-list entry |
| Romania.GenerateExamples | romania/romania.py:95-140 | the generator computes the pass over the archive, and every record comes from a matched (and allowed) entry |
| Phytoplankton.SelectionMessageSpelled | phytoplankton/phytoplankton.py:36 | the ValueError message is `Selection must be one of ['rep-0', 'rep-1']` |
| Phytoplankton.NewConfig | phytoplankton/phytoplankton.py:21-45 | a configuration is built iff the selection is `rep-0` or `rep-1`; any other selection fails with that message |
| Phytoplankton.SplitName | phytoplankton/phytoplankton.py:93-96 | no contract of its own: the keys of the returned dictionary; `SplitsMatchDirectories` states how they relate to the directories |
| Phytoplankton.Directory | phytoplankton/phytoplankton.py:93-96 | no contract of its own: the `split_name` each generator is given; `SplitsMatchDirectories` states that these are distinct and are the pattern's directories |
| Phytoplankton.SplitsMatchDirectories | phytoplankton/phytoplankton.py:92-102 | the split names are distinct, and the split directories are distinct and are exactly `train`, `validation` and `test`; only `valid` is named differently from its directory |
| Phytoplankton.PhytoIdsSpelled | phytoplankton/phytoplankton.py:68-69 | the schema's channel ids are exactly "1" to "12" |
| Phytoplankton.SliceTwelve | phytoplankton/phytoplankton.py:116-122 | slicing succeeds iff the image has 12 planes; then channel `str(n)` is plane n-1 for n from 1 to 12, and the keys are the schema's |
| Phytoplankton.ProcessEntry | phytoplankton/phytoplankton.py:104-130 | No match: fatal. Another replicate or another split directory: skipped. A plane count other than 12: the channel-count error with the file name. Otherwise a record with the twelve channels, the file name and the species code |
| Phytoplankton.EntryKeptByOneSplit | phytoplankton/phytoplankton.py:92-111 | a matched entry of the configured replicate is kept by exactly one split; an entry of another replicate is kept by none |
| Phytoplankton.UnmatchedNameEndsEverySplit | phytoplankton/phytoplankton.py:108-110 | a name that does not match ends the pass of every split with an error, raised at that entry or before it; when no earlier entry raises, the error is that name's |
| Phytoplankton.RecordsOfSplit | phytoplankton/phytoplankton.py:110-130 | every record of a split comes from an entry of the configured replicate in that split's directory, with its file name and species |
| Phytoplankton.GenerateExamples | phytoplankton/phytoplankton.py:99-130 | the generator of one split computes that split's pass, and its records are as above |
| Phytoplankton.SplitGenerators | phytoplankton/phytoplankton.py:92-97 | the result has the splits `train`, `valid` and `test`, each the pass for its split |
| BloodQuality.SelectionMessageSpelled | blood_quality/blood_quality.py:30 | the ValueError message is `Selection must be one of ['canadian', 'swiss']` |
| BloodQuality.NewConfig | blood_quality/blood_quality.py:16-39 | a configuration is built iff the selection is `canadian` or `swiss`; any other selection fails with that message |
| BloodQuality.CountryDirectory | blood_quality/blood_quality.py:87 | the title-cased selection in the path pattern is `Canadian` or `Swiss` |
| BloodQuality.Step | blood_quality/blood_quality.py:93-111 | no contract of its own: one loop iteration on the pending map; `StepSkips`, `StepFrame`, `StepStores`, `StepOverwrites`, `StepEmits` and `StepKeepsValid` state what it does |
| BloodQuality.StepSkips | blood_quality/blood_quality.py:93-97 | an entry that does not match, or has morphology `Side` or `Undecidable`, leaves the pending map unchanged and yields nothing |
| BloodQuality.StepFrame | blood_quality/blood_quality.py:98-104 | an entry changes only the pending group of its own base name |
| BloodQuality.StepStores | blood_quality/blood_quality.py:98-100 | an entry that completes no cell is stored under its channel, and a channel seen before does not grow the cell |
| BloodQuality.StepOverwrites | blood_quality/blood_quality.py:100-102 | a repeated channel of a pending cell overwrites, keeps the cell's size, and yields nothing |
| BloodQuality.StepEmits | blood_quality/blood_quality.py:100-111 | an entry yields a record iff it brings a third distinct channel to a cell. The record has exactly those three channels plus the entry's file name and morphology, and the cell is no longer pending |
| BloodQuality.StepKeepsValid | blood_quality/blood_quality.py:100-104 | every pending cell keeps one or two channels |
| BloodQuality.Run | blood_quality/blood_quality.py:88-111 | no contract of its own: the loop as a fold of `Step` from a pending map; `RunKeepsValid`, `RunCollects`, `RunConcat` and `CellYieldedWhenThirdChannelArrives` state what it does |
| BloodQuality.RunKeepsValid | blood_quality/blood_quality.py:88-111 | over a whole pass the pending map stays valid, and every record has three channels |
| BloodQuality.ChannelsFor | blood_quality/blood_quality.py:95-100 | the set of channel ids that the kept entries of a cell carry (not `Side`/`Undecidable`, that cell's base name), exactly: each kept entry's channel is in it, and nothing else is |
| BloodQuality.RunCollects | blood_quality/blood_quality.py:93-104 | while a cell cannot reach three distinct channels, the pending group it ends a pass with has exactly the channels it started with plus those of its kept entries in the stream |
| BloodQuality.IncompleteCellsAreNeverYielded | blood_quality/blood_quality.py:88-111 | no flush: when no cell can reach three distinct channels, a pass yields nothing |
| BloodQuality.StepGroupWithin | blood_quality/blood_quality.py:93-104 | an entry adds at most its own channel to a cell's pending group, and only to its own cell when it is kept |
| BloodQuality.RunConcat | blood_quality/blood_quality.py:88-111 | a pass over two stretches of entries in a row is the pass over the first, continued from its pending map by the pass over the second |
| BloodQuality.RunKeepsOtherCell | blood_quality/blood_quality.py:98-104 | a stretch with no kept entry of a cell leaves that cell's pending group as it was |
| BloodQuality.CellGrowsBy | blood_quality/blood_quality.py:98-104 | a kept entry that does not complete its cell, followed by entries of other cells, leaves the cell pending with that entry's channel added |
| BloodQuality.CellYieldedWhenThirdChannelArrives | blood_quality/blood_quality.py:88-111 | three kept entries of one cell with distinct channels, with entries of other cells between them: the cell is pending with the first two channels, the third entry yields exactly one record (that cell, with the third entry's file name and morphology), and the cell is no longer pending |
| BloodQuality.Grouper.constructor | blood_quality/blood_quality.py:88 | `defaultdict(dict)`: the pending map starts empty |
| BloodQuality.Grouper.Add | blood_quality/blood_quality.py:93-111 | updates the pending map in place to the pending map that `Step` gives, returns the record `Step` yields, and keeps the map valid |
| BloodQuality.GenerateExamples | blood_quality/blood_quality.py:85-111 | the loop driving one grouper yields the records of the pass `Run` from an empty map, each with three channels |

## Left out

- Regular expressions. The match of each entry is an input: its groups, or
  `None`. For blood_quality, the requirement that a matching name contain the
  title-cased country after a `/` is stated as `CountryDirectory` and is not
  checked against the groups.
- TIFF decoding and pixel values. An image is the sequence of its planes, with an
  opaque plane type.
- The archive, the manual-download existence check, and reading the CSV mapping
  and the metabarcoding list file. These are file-system and archive I/O; they
  become given sequences of entries, rows and lines.
- Generator laziness. A pass is a finite sequence of records plus the error that
  ended it.
- The error messages built with f-strings around a float or a file name. The
  errors carry the same values (the channel count, the file name) but are not
  formatted. The exception types are noted beside each error constructor.
- Poldiv's `GenusNotFound(clazz)` carries the class, which the source's
  message omits (see "Findings").
- The configuration constructors' defaults `selection=None` and `dataset=None`
  (poldiv/poldiv.py:28, romania/romania.py:21, phytoplankton/phytoplankton.py:27,
  blood_quality/blood_quality.py:21). In Python, a missing selection is `None`,
  which is not in the option list, so construction raises the ValueError. The
  model's selection and dataset are always strings, so neither has a `None`
  case; a `None` selection would take the ValueError path.
- A `None` match in romania and phytoplankton raises AttributeError (`m.group`
  on `None`). The model records that error together with the file name, which
  the real message does not contain.
- Text.Lower, Text.Title: ASCII case mapping only. The file-name patterns and
  the selections only admit ASCII letters, but Python's full Unicode
  `lower`/`title` is not modelled.
- Text.ListReprPair: Python's `repr` is modelled for strings without quote or
  backslash characters, which is what the option lists contain.
- Poldiv: the `startswith('all')` branch is taken by every configuration (as
  proved), so its other branch is not modelled. In the source, that branch
  reaches `yield` with no features and would raise NameError.
- BloodQuality.StepEmits: it does not require the three channel ids to be the
  schema's `1`, `9` and `12`. The generator does not check them either; the host
  framework would reject other ids when encoding.
- TFDS builder plumbing: `_info`, versions, release notes, class-name files,
  and the host framework's `ClassLabel` check that a label is a known class.
- The poldiv_balanced test file declares split sizes for a module that is not
  part of this model.
- A romania 24-plane layout with channel ids 1 to 12 and no channel 9: the
  source does not implement it, and the model slices as the code does.

## Findings

| source | as written | input that shows it | evidently intended | confidence | as-written member | corrected member |
|---|---|---|---|---|---|---|
| poldiv/poldiv.py:135 | `raise Exception('Genus not found for {clazz}')`: not an f-string, so the message is that literal text | any class missing from the genus table in the `all-genus` configuration, e.g. `betula` and `alnus`, which get the same message | `f'Genus not found for {clazz}'`, naming the missing class | high; not executed | Poldiv.AsWrittenMessageOmitsClass | Poldiv.GenusNotFoundMessageNamesClass |

The model's `GenusNotFound` error carries the class. Its intended text is
`GenusNotFoundMessage`, which is proved to contain the class and to tell
distinct classes apart.
