# javamemflame allocation folding, in Dafny

javamemflame reads a Java Flight Recorder recording and writes
`mem-info-<id>.txt`. Each line of that file is a folded stack followed by the
number of bytes allocated under it, in the form flamegraph tools read. This
project models the core of `Main.java`:

- **translate**: a JVM type name or field descriptor (`[[I`,
  `[Ljava.lang.String;`, `java.util.HashMap`) turned into a readable name
  (`int[][]`, `java.lang.String;[]`, `java.util.HashMap`). Module `TypeNames`.
- **the folded key**: `java;` followed by one `type:.method;` per frame, from
  the outermost caller to the allocating frame, with the dots of type names
  written as slashes, and then the translated allocated type. Module `FoldedStacks`.
- **the include filter**: the comma-separated second argument tokenized as
  `StringTokenizer` does, with dots turned into slashes. A key is counted when
  there are no terms or when some term occurs in it. Module `Includes`.
- **aggregation**: every `jdk.ObjectAllocationInNewTLAB` or
  `jdk.ObjectAllocationOutsideTLAB` event that has a non-empty stack, an object
  class and an allocation size adds its size to the counter of its key.
  - The specification is a fold over the events (`Aggregate`).
  - The in-place table is the class `AllocationTable`, whose methods are proved
    against that fold. Module `Aggregation`.
- **sortByValue**: the table's entries sorted from the largest total to the
  smallest, as an insertion sort on an array of rows. Module `Report`.
- **the output id**: the number written between the first `-` and the first
  `.` of the first argument, or 0 when either is missing. Module `OutputId`.
  The argument is the recording's path as given, directories included, so a
  `.` in a directory name counts: `./rec-1.jfr` ends the run.
  - `Long.valueOf` and `Long.toString` are modelled in module `Numbers`.
- **a run**: `main` without its I/O, composing all of the above. Module `Pipeline`.

Strings are `seq<char>`. `indexOf`, `replace` and `contains` are in module
`Text`. `Option` and `Result` are in module `Wrappers`.

Behaviours of `Main.java` that the model keeps as they are:

- The id is read after the FIRST `-` of the path (`indexOf`), not the last.
- `translate` keeps the trailing `;` of a reference descriptor
  (`[Ljava.lang.String;` becomes `java.lang.String;[]`).
- `translate` reads the first character after the array markers as a
  descriptor code whatever follows it. A class of the default package whose
  name starts with `Z`, `B`, `C`, `D`, `F`, `I`, `J`, `S` or `L` is therefore
  rendered wrongly: `Item` becomes `int` and `Logger` becomes `ogger`. For the
  same reason translate is not idempotent beyond primitive results:
  `[LFoo;` gives `Foo;[]`, which translates again to `float`.

- Input that is empty or holds only `[` makes `translate` throw. The exception
  is raised inside a task handed to `ExecutorService.submit`, whose future
  keeps it and is never read, so the event is silently not counted. The model
  gives `None`, and the event adds nothing.
- A path whose first `.` comes before its first `-` makes `substring`
  throw. Text between the two that is not a long makes `Long.valueOf` throw.
  Either exception ends the run before any event is read: `Err(BadRange)` or
  `Err(NotANumber)`.

## Model

| member | source | states |
|---|---|---|
| Text.IndexOf | src/main/java/org/jboss/javamemflame/Main.java:236 | `indexOf(c)` is -1 exactly when `c` is absent; otherwise it is a position holding `c` with no `c` before it |
| Text.IndexOfAfter | src/main/java/org/jboss/javamemflame/Main.java:236-238 | in `a + [c] + b` with no `c` in `a`, `indexOf(c)` is the length of `a` |
| Text.IndexOfPrefix | src/main/java/org/jboss/javamemflame/Main.java:236-238 | text after the first occurrence of `c` does not change `indexOf(c)` |
| Text.Replace | src/main/java/org/jboss/javamemflame/Main.java:214 | `replace(from, to)` keeps the length, swaps each `from` for `to`, keeps every other character, and leaves no `from` behind when `from != to` |
| Text.Contains | src/main/java/org/jboss/javamemflame/Main.java:225 | `entry.contains(include)`: the term occurs as a contiguous slice of the key at some position |
| TypeNames.PrimitiveName | src/main/java/org/jboss/javamemflame/Main.java:95-126 | the eight primitive descriptor codes Z, B, C, D, F, I, J, S and their Java names; any other character has none |
| TypeNames.BaseName | src/main/java/org/jboss/javamemflame/Main.java:95-134 | after the markers only the first character is inspected: a primitive code gives its name, `L` is dropped with the rest kept, anything else is kept whole |
| TypeNames.ArrayDepth | src/main/java/org/jboss/javamemflame/Main.java:89-93 | the number of leading `[`: all characters before it are `[` and the one at it, if any, is not |
| TypeNames.Translation | src/main/java/org/jboss/javamemflame/Main.java:82-142 | translate fails (None) exactly when every character is an array marker `[` |
| TypeNames.TranslationShape | src/main/java/org/jboss/javamemflame/Main.java:84-139 | with k leading `[` the result is the base name followed by exactly k copies of `[]` |
| TypeNames.PrimitiveTranslation | src/main/java/org/jboss/javamemflame/Main.java:95-126 | a primitive code after the markers gives its Java name followed by the markers as `[]` |
| TypeNames.PrimitiveIgnoresRest | src/main/java/org/jboss/javamemflame/Main.java:95-126 | only the one code character is read: whatever follows a primitive code is ignored |
| TypeNames.ReferenceTranslation | src/main/java/org/jboss/javamemflame/Main.java:127-130 | after the markers, `L` is dropped and the rest is kept verbatim, `;` included |
| TypeNames.PlainNameUnchanged | src/main/java/org/jboss/javamemflame/Main.java:131-134 | a name with no marker and no descriptor code comes back unchanged |
| TypeNames.PrimitiveTranslationIdempotent | src/main/java/org/jboss/javamemflame/Main.java:95-134 | translating a translated primitive type again changes nothing |
| TypeNames.PrimitiveNameInitial | src/main/java/org/jboss/javamemflame/Main.java:95-126 | no primitive name starts with a character that translate rewrites |
| TypeNames.PrimitiveExamples | src/main/java/org/jboss/javamemflame/Main.java:95-126 | `I` gives `int`, `Z` gives `boolean`, `[[I` gives `int[][]` |
| TypeNames.ReferenceExamples | src/main/java/org/jboss/javamemflame/Main.java:127-139 | `[[LFoo;` gives `Foo;[][]` |
| TypeNames.PlainExample | src/main/java/org/jboss/javamemflame/Main.java:131-134 | `java.util.HashMap` is unchanged |
| TypeNames.MalformedExamples | src/main/java/org/jboss/javamemflame/Main.java:89-95 | the empty name and `[[` make translate fail |
| TypeNames.Translate | src/main/java/org/jboss/javamemflame/Main.java:82-142 | the two loops and the branch chain compute `Translation`: the base name followed by one `[]` per marker, or failure at the end of input |
| TypeNames.NotIdempotentExample | src/main/java/org/jboss/javamemflame/Main.java:111-130 | `[LFoo;` gives `Foo;[]`, and translating that again gives `float`: translate is not idempotent beyond primitive results |
| TypeNames.DefaultPackageExamples | src/main/java/org/jboss/javamemflame/Main.java:115-130 | default-package classes `Item` and `Logger` come out as `int` and `ogger` |
| FoldedStacks.FrameText | src/main/java/org/jboss/javamemflame/Main.java:214-217 | one frame is the declaring type with dots as slashes, then `:.`, the method name and `;` |
| FoldedStacks.StackText | src/main/java/org/jboss/javamemflame/Main.java:209-218 | the captured frames written from the last index down to the first |
| FoldedStacks.FoldedKey | src/main/java/org/jboss/javamemflame/Main.java:206-223 | the key is `java;`, the stack text and the translated type, and there is no key exactly when translate throws |
| FoldedStacks.StackTextAppend | src/main/java/org/jboss/javamemflame/Main.java:209-218 | the text of a concatenation of captured frames is the text of the later part followed by the text of the earlier part |
| FoldedStacks.StackTextIsReversed | src/main/java/org/jboss/javamemflame/Main.java:209-218 | the frames of a key are the captured frames reversed, i.e. outermost caller first |
| FoldedStacks.FoldedKeyFrame | src/main/java/org/jboss/javamemflame/Main.java:206-223 | when translate succeeds, every key starts with `java;` and ends with the translated allocated type |
| FoldedStacks.StackExample | src/main/java/org/jboss/javamemflame/Main.java:209-218 | frames captured as C.c, B.b, A.a are written `A:.a;B:.b;C:.c;` |
| FoldedStacks.KeyExample | src/main/java/org/jboss/javamemflame/Main.java:206-223 | that stack with an `I` allocation gives `java;A:.a;B:.b;C:.c;int` |
| FoldedStacks.BuildKey | src/main/java/org/jboss/javamemflame/Main.java:206-223 | the StringBuilder loop from the last frame index down to 0 builds exactly `FoldedKey`: tag, reversed frames, translated type |
| Includes.TokensSplit | src/main/java/org/jboss/javamemflame/Main.java:245-248 | a comma splits the tokens of what precedes it from the tokens of what follows it |
| Includes.TokensShape | src/main/java/org/jboss/javamemflame/Main.java:245-248 | every token is non-empty and holds no comma |
| Includes.SingleToken | src/main/java/org/jboss/javamemflame/Main.java:245-248 | a non-empty argument without a comma is a single token |
| Includes.IncludeTermsShape | src/main/java/org/jboss/javamemflame/Main.java:243-251 | every include term is non-empty and holds no comma and no dot |
| Includes.IncludeTermsExample | src/main/java/org/jboss/javamemflame/Main.java:243-251 | `a.b,,c.d` gives the two terms `a/b` and `c/d` |
| Includes.EmptyIncludesAcceptAll | src/main/java/org/jboss/javamemflame/Main.java:225 | with no include terms every key is accepted |
| Includes.FilterExamples | src/main/java/org/jboss/javamemflame/Main.java:225 | the term `com/foo` accepts a key that contains it and rejects one that does not |
| Includes.Tokens | src/main/java/org/jboss/javamemflame/Main.java:245-248 | the tokens of `StringTokenizer(arg, ",")`: the maximal comma-free pieces in order, empty ones skipped |
| Includes.Normalize | src/main/java/org/jboss/javamemflame/Main.java:249 | `replace('.', '/')` of a token: same length and no dot left |
| Includes.IncludeTerms | src/main/java/org/jboss/javamemflame/Main.java:243-251 | the empty set without a second argument, otherwise the normalised tokens of it |
| Includes.Accepts | src/main/java/org/jboss/javamemflame/Main.java:225 | a key passes when the include set is empty or some term is contained in the key |
| Includes.ParseIncludes | src/main/java/org/jboss/javamemflame/Main.java:243-251 | the tokenizer loop builds exactly the normalised token set `IncludeTerms(arg)`, and the empty set when there is no second argument |
| Aggregation.KeyOf | src/main/java/org/jboss/javamemflame/Main.java:192-225 | an event is counted only if it is an allocation event with a size and its key passes the filter |
| Aggregation.Upsert | src/main/java/org/jboss/javamemflame/Main.java:227-228 | the key is added if absent, its counter raised by the amount, and every other counter kept |
| Aggregation.Step | src/main/java/org/jboss/javamemflame/Main.java:190-234 | an event without a key leaves the table unchanged; otherwise the table gains exactly that key |
| Aggregation.AggregateFrom | src/main/java/org/jboss/javamemflame/Main.java:263-275 | the events applied one after the other, in order, to a starting table |
| Aggregation.Aggregate | src/main/java/org/jboss/javamemflame/Main.java:189-275 | the table a run builds from the empty map |
| Aggregation.AggregateKeys | src/main/java/org/jboss/javamemflame/Main.java:225-228 | a key is in the table exactly when some counted event has that key |
| Aggregation.AggregateTotals | src/main/java/org/jboss/javamemflame/Main.java:227-228 | each counter is the sum of the sizes of the events counted under its key, and that sum is 0 for a key not in the table |
| Aggregation.AggregateMonotone | src/main/java/org/jboss/javamemflame/Main.java:227-228 | processing more events never removes a key and never decreases a counter |
| Aggregation.SkippedEvent | src/main/java/org/jboss/javamemflame/Main.java:194-204 | an event of another kind, with a missing field or with an empty stack leaves the table unchanged |
| Aggregation.RejectedEvent | src/main/java/org/jboss/javamemflame/Main.java:225 | an event whose key the filter rejects leaves the table unchanged |
| Aggregation.CountedEvent | src/main/java/org/jboss/javamemflame/Main.java:194-228 | an allocation event with all three fields, a non-empty stack and an accepted key adds its size under its folded key |
| Aggregation.SumForPermutation | src/main/java/org/jboss/javamemflame/Main.java:255-275 | the total for a key does not depend on the order of the events |
| Aggregation.ProducesPermutation | src/main/java/org/jboss/javamemflame/Main.java:255-275 | whether a key is produced does not depend on the order of the events |
| Aggregation.AggregateOrderIndependent | src/main/java/org/jboss/javamemflame/Main.java:255-275 | the table is the same for any order of the events, which is what makes the thread pool's interleaving harmless |
| Aggregation.UpsertSum | src/main/java/org/jboss/javamemflame/Main.java:227-228 | `putIfAbsent` then `add` raises the sum of all counters by exactly the size added |
| Aggregation.AggregateGrandTotal | src/main/java/org/jboss/javamemflame/Main.java:194-228 | the counters add up to the total size of the counted events: no bytes lost or counted twice |
| Aggregation.AllocationTable.constructor | src/main/java/org/jboss/javamemflame/Main.java:189 | the table starts empty |
| Aggregation.AllocationTable.Add | src/main/java/org/jboss/javamemflame/Main.java:227-228 | the key's counter is created at 0 if absent and then raised by the amount; every other key keeps its counter |
| Aggregation.AllocationTable.Process | src/main/java/org/jboss/javamemflame/Main.java:190-234 | the runnable's checks, key construction, filter and update change the table exactly as `Step` does |
| Aggregation.AllocationTable.ProcessAll | src/main/java/org/jboss/javamemflame/Main.java:263-275 | processing the events one after the other leaves the table equal to the fold `AggregateFrom` of the events over the old table |
| Numbers.DecimalText | src/main/java/org/jboss/javamemflame/Main.java:278 | the decimal text of a total is non-empty, made of digits only, and has no leading zero unless the total is zero |
| Numbers.ParseLong | src/main/java/org/jboss/javamemflame/Main.java:238 | every value `Long.valueOf` accepts is within the range of a long |
| Numbers.DigitsOfDecimal | src/main/java/org/jboss/javamemflame/Main.java:278 | reading the digits of a decimal text gives back the number |
| Numbers.ParseDecimal | src/main/java/org/jboss/javamemflame/Main.java:238 | `Long.valueOf(Long.toString(n))` is `n` for every non-negative long |
| Numbers.ParseOutOfRange | src/main/java/org/jboss/javamemflame/Main.java:238 | digits for a value above the long range are refused |
| Numbers.ParseLongExamples | src/main/java/org/jboss/javamemflame/Main.java:238 | `-12` and `+7` are read; the empty text, a lone sign and `1x` are refused |
| OutputId.DeriveId | src/main/java/org/jboss/javamemflame/Main.java:236-239 | the id is 0 when the path lacks `-` or `.`, and any id is within the range of a long |
| OutputId.DeriveIdBetween | src/main/java/org/jboss/javamemflame/Main.java:236-239 | for a path `<prefix>-<text>.<suffix>`, the id is whatever `Long.valueOf` makes of the text |
| OutputId.DeriveIdRoundTrip | src/main/java/org/jboss/javamemflame/Main.java:236-239 | a path `<prefix>-<n>.<suffix>` gives back `n` |
| OutputId.DotBeforeDash | src/main/java/org/jboss/javamemflame/Main.java:236-238 | a `.` before the first `-` leaves the substring bounds out of order, and the run fails |
| OutputId.NoDashExample | src/main/java/org/jboss/javamemflame/Main.java:236 | `recording.jfr` gets id 0 |
| OutputId.RelativePathExample | src/main/java/org/jboss/javamemflame/Main.java:185-238 | the whole argument is searched: `./rec-1.jfr` fails on the substring bounds |
| OutputId.NumberedExample | src/main/java/org/jboss/javamemflame/Main.java:236-239 | `recording-1234.jfr` gets id 1234 |
| OutputId.BadRangeExample | src/main/java/org/jboss/javamemflame/Main.java:238 | `x.y-1` fails on the substring bounds |
| OutputId.EmptyNumberExample | src/main/java/org/jboss/javamemflame/Main.java:238 | `rec-.jfr` fails because the text between `-` and `.` is no number |
| Report.RenderRowReadsBack | src/main/java/org/jboss/javamemflame/Main.java:278 | a line is its key, a space, and text that reads back as its total |
| Report.RenderRow | src/main/java/org/jboss/javamemflame/Main.java:278 | one output line: the key, a space and the total in decimal |
| Report.PermutationKeepsEntries | src/main/java/org/jboss/javamemflame/Main.java:153-159 | reordering the entry list keeps exactly the entries of the map |
| Report.ReportLength | src/main/java/org/jboss/javamemflame/Main.java:152-165 | rows holding exactly the entries of a map are as many as its keys |
| Report.ReportHeadMax | src/main/java/org/jboss/javamemflame/Main.java:153-159 | the first row of a report holds the largest total of the map |
| Report.ReportTail | src/main/java/org/jboss/javamemflame/Main.java:150-166 | dropping the first row of a report leaves a report of the map without that key |
| Report.ReportsShareHead | src/main/java/org/jboss/javamemflame/Main.java:153-159 | when no two totals tie, any two reports of one map start with the same row |
| Report.ReportUnique | src/main/java/org/jboss/javamemflame/Main.java:150-166 | when no two totals tie, a map has exactly one report, so the sorted output is fully determined by the map |
| Report.Entries | src/main/java/org/jboss/javamemflame/Main.java:152 | the entry list holds each key-total pair of the map once, and nothing else |
| Report.InsertAt | src/main/java/org/jboss/javamemflame/Main.java:153-159 | one insertion step makes a longer prefix descending, only permutes the array, and leaves the rest of it alone |
| Report.SortRows | src/main/java/org/jboss/javamemflame/Main.java:153-159 | the rows end up in descending order of total and are a permutation of the rows before |
| Report.SortByValue | src/main/java/org/jboss/javamemflame/Main.java:150-166 | the result lists every entry of the map exactly once, with no other entries, from the largest total to the smallest |
| Pipeline.Run | src/main/java/org/jboss/javamemflame/Main.java:173-282 | a path the id cannot be derived from ends the run with its error. Otherwise the id is the derived one, the rows are a report of the aggregate of all events under the parsed include terms, and line i is row i rendered |
| Pipeline.TwoRowsReport | src/main/java/org/jboss/javamemflame/Main.java:150-166 | two rows with the larger total first are a report of their two-entry table |
| Pipeline.ReportOfTwo | src/main/java/org/jboss/javamemflame/Main.java:150-166 | any report of a two-entry table with different totals lists the larger first |
| Pipeline.ScenarioKeys | src/main/java/org/jboss/javamemflame/Main.java:206-223 | single-frame stacks A.a and B.b with an `I` allocation give the keys `java;A:.a;int` and `java;B:.b;int` |
| Pipeline.ScenarioTable | src/main/java/org/jboss/javamemflame/Main.java:190-234 | sizes 100 and 250 under one key and 16 under another build the table with 350 and 16 |
| Pipeline.EndToEndScenario | src/main/java/org/jboss/javamemflame/Main.java:190-279 | events of sizes 100 and 250 under one key and 16 under another, in any order, give exactly the rows `java;A:.a;int 350` and `java;B:.b;int 16` |

## Left out

- Reading the recording (`RecordingFile`, `RecordedEvent`) is left out. Events are given as a sequence of `Event` values whose absent or null fields are `None`.
- Opening, writing and closing `mem-info-<id>.txt` is left out. `Pipeline.Run` returns the id and the lines that would be written instead.
- The thread pool is left out. Events are folded one after the other. `AggregateOrderIndependent` shows that the order of the additions does not matter, but atomicity of `ConcurrentHashMap` and `LongAdder` is not modelled.
- The main loop's own event-name test (lines 266-272) is not modelled separately. The runnable repeats it, so it is modelled once, in `KeyOf`.
- The usage message (lines 177-183) is not modelled. Without arguments the code goes on to read `args[0]` at line 185, which throws; the catch block at lines 283-287 prints the exception. `Pipeline.Run` takes the path as a parameter.
- Exceptions ending `main` are modelled as an `Err` result. The message and stack trace printed to standard error are left out.
- Aggregation.AllocationTable.Add: totals are unbounded `nat`. A `LongAdder` that passes the long range, or a negative allocation size, is not modelled.
- TypeNames.PrimitiveTranslationIdempotent: idempotence is stated for primitive results only, because translate is not idempotent in general. A translated reference array or a default-package class name can start with a descriptor code, as `NotIdempotentExample` and `DefaultPackageExamples` show.
- Numbers.ParseLong: only ASCII digits are read. `Long.valueOf` also accepts other Unicode decimal digits.
- Report.SortByValue: the order of rows with equal totals is not stated. It depends on the iteration order of the `ConcurrentHashMap`, which `Entries` picks arbitrarily. The `LinkedHashMap` result is modelled as its sequence of entries.
- Report.SortRows: stability is not stated. `Collections.sort` is a stable merge sort, and the model sorts by insertion, which also keeps rows with equal totals in their input order because it swaps only on a strictly smaller total. The contract states only descending order and permutation. Stability cannot be observed here: the input comes from `Entries`, whose order is already arbitrary, so rows with equal totals may come out in any order either way. When no two totals tie, `Report.ReportUnique` shows the output is fully determined.
