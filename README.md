# A verified model of a small JVM written in Go

The `book/` package is a small Java Virtual Machine. It reads a class file
into a `Class` record, loads and links classes through a cached `Loader`, and
runs bytecode on a `Thread` of `Frame`s. Each frame has a bounded operand
stack and an array of locals. A handler table maps each opcode to a function
`(thread, class, code, pc) -> pc'`. A few native methods stand in for parts
of the Java library.

This project models that package in Dafny and proves what it does.

| file | module | models |
|---|---|---|
| `base.dfy` | `Base` | fixed-width integers, Go's truncating division, the `Result`/`Option` types, and the faults that stand for Go panics |
| `utils.dfy` | `Utils` | `ParseU8`, `ParseU16` and `ParseI16` from `book/utils.go`, with the big-endian round trip |
| `model.dfy` | `Model` | the class-file records and the lookups in `book/model.go` |
| `parser.dfy` | `Parser` | the cursor-based class-file `Parser` of `book/parser.go`, specified by functions that decode at a position |
| `values.dfy` | `Values` | the `Value` union of `book/rtda.go` and 32/64-bit arithmetic |
| `collection.dfy` | `Collection` | the bounded generic `Stack` of `book/collection.go`, kept in an array |
| `operands.dfy` | `OperandStack` | the operand stack as a sequence, including the `Push2`/`Pop2` pair |
| `rtda.dfy` | `Runtime` | the object heap, `Frame`, `Thread`, `NewString` interning and `GetLine` |
| `loader.dfy` | `ClassLoader` | the runtime `Class` and the `Loader`: load, define, link, slot numbering and static constants |
| `natives.dfy` | `Natives` | the native-function registry of `book/native.go` |
| `descriptor.dfy` | `Descriptor` | `MethodDescParser` of `book/rtda.go` |
| `semantics.dfy` | `Semantics` | what each frame-only instruction does to an operand stack, locals and heap, as functions |
| `handlers.dfy` | `Handlers` | those instructions as methods on a `Frame`, each proved against its function |
| `dispatch.dfy` | `Dispatch` | the opcode table `InitInstruction` and one step of a frame-only instruction |
| `instructions.dfy` | `Instructions` | the handlers that need the thread, the loader or the heap: `ldc`, `new`, fields, `instanceof`/`checkcast`, arrays, returns, `athrow`, and the natives |
| `interpreter.dfy` | `Interpreter` | `parseArgCount`, `invokeMethod`, the four invoke handlers and the `RunMethod` fetch–dispatch loop |

## How the model is built

- **Panics become failures.** Every Go panic returns `Fail(fault)` of a `Result`. This covers explicit `panic(...)` calls and runtime panics: an index out of range, a nil dereference, a bad slice. Nothing in the package recovers from a panic, so no caller ever sees a state after a failure.
- **Two exceptions keep preconditions.** The helper-level `Stack.Pop`, `Stack.Peek` and `Stack.PeekAt` and the `Utils` decoders have no guard in Go. Their index conditions stay as `requires`.
- **Mutable objects are classes.** `Stack`, `Parser`, `Frame`, `Thread`, `Loader`, the runtime `Class`, the heap, the native registry and `MethodDescParser` are Dafny classes. Their methods carry `modifies` clauses.
- **Each class method is proved against a function.** A parser method agrees with a function that decodes at a position (`ConstsAt`, `AttributeAt`, ...). A handler agrees with a function in `Semantics`. Slot numbering agrees with `Layout`, and static initialisation with `StaticInit`. Lemmas prove what those functions mean.
- **Parsed data is a value.** A class file is the `ClassFile` datatype. The runtime `Class` adds the link-time fields: instance and static slot counts, static values, and one slot id per field.
- **Guest objects live in a heap.** Objects are held in `Heap.objects`, and a reference `Value` is an address into it.
- **Global maps are explicit state.** The interned strings are a field of the `Thread`. The native registry is a `Registry` object. The opcode table is the function `Dispatch.Decode`.
- **Recursion carries fuel.** Class loading, `instanceOf`, `makeMultiArray` and nested `RunMethod` calls take `fuel: nat`. Running out of it gives `OutOfFuel`.

## Model

| member | source | states |
|---|---|---|
| Base.Wrap32 | book/instruction.go:428-434 | the result is congruent to the exact value modulo 2^32 and equals it when it fits, as Go's int32 arithmetic wraps |
| Base.Wrap64 | book/instruction.go:420-426 | the same for int64 modulo 2^64 |
| Base.Quot | book/instruction.go:492-498 | Go's truncating quotient: `b * q` is `a` minus the remainder, and the remainder takes the dividend's sign |
| Base.Remainder | book/instruction.go:592-598 | Go's `%`: the remainder is smaller in magnitude than the divisor |
| Base.BytesToString | book/parser.go:68-70 | a UTF-8 entry's text has one character per byte, with the same code |
| Utils.ParseU8 | book/utils.go:26-28 | the byte at the index, read as a one-byte big-endian number |
| Utils.ParseU16 | book/utils.go:30-32 | for an index with two bytes before the end of the sequence, the big-endian value of those two bytes, in 0..65535; the Go slice may also read past its length, as "## Left out" says |
| Utils.ParseI16 | book/utils.go:34-36 | the result lies in -32768..32767, is congruent to ParseU16 modulo 2^16, and is negative exactly when the high byte's top bit is set |
| Utils.ParseI16Unsigned | book/utils.go:34-36 | reduced modulo 65536, ParseI16 gives back ParseU16 |
| Utils.BigEndianTwo | book/utils.go:30-32 | the big-endian value of two bytes is `a * 256 + b` |
| Utils.BigEndianBound | book/parser.go:44-57 | the big-endian value of n bytes is below 256^n |
| Utils.BigEndianRoundTrip | book/parser.go:44-57 | encoding a value below 256^n in n bytes and decoding it gives the value back |
| Utils.ToBigEndianRoundTrip | book/parser.go:44-57 | decoding bytes and re-encoding at the same width gives the bytes back |
| Model.Resolve | book/model.go:66-72 | a text is produced only for an index inside the pool; a failure is an index out of range or a chain of indirections that does not end |
| Model.ResolveChainEnd | book/model.go:66-72 | resolution succeeds exactly when the chain of Class/String indirections ends at a plain entry, and the result is that entry's text |
| Model.GetStringIndirect | book/model.go:66-72 | a Class or String entry that points at a plain entry yields that entry's text |
| Model.ResolveMonotone | book/model.go:66-72 | more steps never change an answer that did not run out of steps |
| Model.ResolveChain | book/model.go:66-72 | an entry that resolves within k steps has a chain of at most k Class/String entries ending at a plain entry |
| Model.ChainResolves | book/model.go:66-72 | a chain of m indirections ending at a plain entry resolves with any k >= m steps |
| Model.ChainInjective | book/model.go:66-72 | a chain that ends never visits the same entry twice |
| Model.ChainShort | book/model.go:66-72 | a chain that ends is shorter than the pool (pigeonhole) |
| Model.GetStringComplete | book/model.go:66-72 | whatever any number of steps resolves, GetString's bound of one step per pool entry resolves to the same text, so the bound never cuts off a chain the unbounded Go recursion finishes |
| Model.FindMember | book/model.go:47-64 | a found index is the first member from `from` on whose name and descriptor both match; "none" means no member matches; the search fails only when a name or descriptor cannot be read |
| Model.FirstNamed | book/model.go:84-100 | the index of the first attribute with the name, or none exactly when no attribute has it |
| Model.GetCodeAttribute | book/model.go:84-91 | the code of the first "Code" attribute, or nil when there is none |
| Model.GetConstantValueAttribute | book/model.go:93-100 | the index of the first "ConstantValue" attribute, or 0 when there is none |
| Model.IsTwoSlot | book/model.go:102-105 | true exactly when the descriptor is "J" or "D"; fails only when the descriptor cannot be read |
| Model.AccessBits | book/model.go:107-125 | IsStatic, IsFinal, IsInterface, IsAbstract and IsNative each test one bit of the access word |
| Model.FindException | book/model.go:153-163 | a found entry is the first one from `from` on that covers pc (both ends inclusive) and whose catch type names the thrown class; with none found, no covering entry catches it |
| Model.CatchAllNeverCatches | book/model.go:153-163 | an entry with catch type 0 never catches, because entry 0 reads as "" and a class name is never empty |
| Parser.UIntAt | book/parser.go:44-57 | reading n bytes succeeds exactly when n bytes remain before the end of the buffer the parser was given, and the value is below 256^n; Go's check is against the slice's capacity, as "## Left out" says |
| Parser.U16AtParseU16 | book/parser.go:44-47 | the parser's two-byte read agrees with Utils.ParseU16 |
| Parser.ParseString | book/parser.go:197-199 | succeeds exactly for an index inside the pool, and for a plain entry gives the same text as GetString |
| Parser.U16sAt | book/parser.go:103-110 | exactly `count` values, each the two-byte number at its position, ending 2 + 2·count bytes after the start |
| Parser.ExceptionsAt | book/parser.go:165-177 | exactly `count` entries of 8 bytes each |
| Parser.LineNumbersAt | book/parser.go:185-195 | exactly `count` entries of 4 bytes each |
| Parser.PoolLoopShape | book/parser.go:62-99 | the pool loop keeps the placeholder in slot 0 and what it has built; every long and double entry is followed by an empty entry; the pool ends with `count` entries, or `count + 1` when the last entry is wide |
| Parser.ConstsAtShape | book/parser.go:59-101 | a decoded pool starts with the placeholder, follows the two-slot rule, and has `count` entries (1 for an empty count, `count + 1` when the last entry is wide) |
| Parser.AttributeAtLength | book/parser.go:127-153 | each attribute consumes exactly 6 + length bytes, whatever its name |
| Parser.UnknownAttributeKeepsBody | book/parser.go:146-149 | an attribute with an unknown name keeps its raw body bytes |
| Parser.ReadAttributeBody | book/parser.go:135-149 | the nested parser over an attribute body decodes it by the attribute's name, treating the body's length as its end |
| Parser.Parser.constructor | book/parser.go:201-203 | a new parser is at index 0 of its data |
| Parser.Parser.ReadBytes | book/parser.go:34-38 | returns `data[index..index+n]` and advances by exactly n; fails when fewer than n bytes remain before the end of the parser's data, where Go fails only past the capacity, as "## Left out" says |
| Parser.Parser.ReadU8 | book/parser.go:40-42 | the byte at the cursor, advancing by 1 |
| Parser.Parser.ReadU16 | book/parser.go:44-47 | the big-endian two-byte value at the cursor, advancing by 2 |
| Parser.Parser.ReadU32 | book/parser.go:54-57 | the big-endian four-byte value, advancing by 4 |
| Parser.Parser.ReadU64 | book/parser.go:49-52 | the big-endian eight-byte value, advancing by 8 |
| Parser.Parser.ReadAll | book/parser.go:179-183 | the rest of the data, leaving the cursor at the end |
| Parser.Parser.ParseConst | book/parser.go:64-91 | one pool entry decoded by its tag, with the cursor after it; an unknown tag fails |
| Parser.MemberLoopCount | book/parser.go:114-123 | the member loop keeps the members read so far and adds exactly one per remaining iteration |
| Parser.MembersAtCount | book/parser.go:112-125 | a decoded field or method table has exactly the number of members its u16 count gives |
| Parser.AttributeLoopCount | book/parser.go:128-152 | the attribute loop keeps the attributes read so far and adds exactly one per remaining iteration |
| Parser.AttributesAtCount | book/parser.go:127-153 | a decoded attribute table has exactly the number of attributes its u16 count gives |
| Parser.Parser.ParseConsts | book/parser.go:59-101 | the loop agrees with the pool decoder, whose shape ConstsAtShape gives |
| Parser.Parser.ReadU16s | book/parser.go:103-110 | agrees with U16sAt |
| Parser.Parser.ParseExceptions | book/parser.go:165-177 | agrees with ExceptionsAt |
| Parser.Parser.ParseLineNumbers | book/parser.go:185-195 | agrees with LineNumbersAt |
| Parser.Parser.ParseCode | book/parser.go:155-163 | agrees with the Code-body decoder |
| Parser.Parser.ParseAttributes | book/parser.go:127-153 | agrees with the attribute-list decoder, and returns as many attributes as the count read first |
| Parser.Parser.ParseAttribute | book/parser.go:130-151 | agrees with the decoder of one attribute, which fails when the body is shorter than its own fields need |
| Parser.Parser.ParseFields | book/parser.go:112-125 | agrees with the member-list decoder, and returns as many members as the count read first |
| Parser.Parser.ParsePreamble | book/parser.go:18-23 | agrees with the decoder of magic, versions and pool |
| Parser.Parser.ParseClassHead | book/parser.go:18-27 | agrees with the decoder of everything up to the interfaces |
| Parser.Parser.ParseClass | book/parser.go:18-32 | agrees with the class-file decoder |
| Values.ArrayClassName | book/instruction.go:1061-1064 | the table yields a name exactly for the int and char type codes, and that name starts with '[' |
| Values.IntegerOf | book/rtda.go:21-28 | reading the int of a nil Value is a nil dereference; an int Value gives its value, any other gives 0 |
| Values.LongOf | book/rtda.go:21-28 | the same for the long field |
| Values.FloatOf | book/rtda.go:21-28 | the same for the float field |
| Values.DoubleOf | book/rtda.go:21-28 | the same for the double field |
| Values.ObjectOf | book/rtda.go:21-28 | a nil Value is a nil dereference; a reference gives its address, any other Value a nil object |
| Values.IntArith | book/instruction.go:428-646 | division and remainder by zero fail and nothing else does; add, subtract and multiply wrap modulo 2^32; the remainder is smaller than the divisor |
| Values.LongArith | book/instruction.go:420-638 | the same for int64 modulo 2^64 |
| Values.IntDivision | book/instruction.go:492-498 | without overflow, quotient times divisor plus remainder is the dividend, and the remainder has the dividend's sign |
| Values.QuotientFits | book/instruction.go:492-498 | the exact quotient fits in 32 bits unless it is MinInt / -1 |
| Values.IntDivisionOverflow | book/instruction.go:492-498 | MinInt / -1 wraps to MinInt and its remainder is 0 |
| Values.Compare | book/instruction.go:687-699 | 1, -1 or 0 exactly as left >, < or = right |
| Values.IntNeg | book/instruction.go:561-566 | the negation, except that MinInt stays MinInt |
| Values.LongNeg | book/instruction.go:554-559 | the same for int64 |
| Values.NegateFloat32 | book/instruction.go:547-552 | flips the sign bit and keeps the others |
| Values.NegateFloat64 | book/instruction.go:540-545 | the same for doubles |
| Values.NegateTwice | book/instruction.go:540-552 | negating a float or double twice gives it back |
| Collection.Stack.constructor | book/collection.go:40-42 | a new stack is empty and its array has `size` slots |
| Collection.Stack.Push | book/collection.go:14-21 | on a non-full stack, writes `val` at the old index and appends it to the contents, other slots unchanged; on a full one, fails with stack overflow and changes nothing |
| Collection.Stack.Pop | book/collection.go:23-26 | removes and returns the top; needs a non-empty stack, as there is no guard |
| Collection.Stack.Peek | book/collection.go:28-30 | the top element, with nothing changed |
| Collection.Stack.PeekAt | book/collection.go:32-34 | the element k places below the top |
| Collection.Stack.IsEmpty | book/collection.go:36-38 | true exactly when the contents are empty |
| OperandStack.Push2 | book/rtda.go:106-109 | a two-slot value is pushed twice when two slots are free, and otherwise overflows |
| OperandStack.Pop2 | book/rtda.go:115-118 | drops the top two slots and returns the lower one; fails on fewer than two |
| OperandStack.PushThenPop | book/rtda.go:102-113 | Pop after Push gives back the value and the old stack |
| OperandStack.Push2ThenPop2 | book/rtda.go:106-118 | Pop2 after Push2 gives back the value and the old stack |
| OperandStack.Push2Room | book/rtda.go:106-109 | Push2 succeeds exactly when two slots are free, grows the stack by 2, and otherwise overflows |
| OperandStack.Pop2IgnoresUpper | book/rtda.go:115-118 | Pop2 returns the lower slot of the pair whatever the upper one holds |
| OperandStack.PopEmpty | book/rtda.go:111-118 | popping an empty stack is an index out of range |
| Runtime.Heap.Alloc | book/rtda.go:72-74 | a new object goes at the end of the heap, and the reference is its address |
| Runtime.Heap.AllocString | book/rtda.go:564-575 | a String object whose value slot points to a new char array holding the text; fails when the slot is beyond the class's instance slots |
| Runtime.Chars | book/rtda.go:567-570 | one int Value per byte of the text, with the byte's code |
| Runtime.Frame.constructor | book/rtda.go:142-148 | the arguments fill the first locals and the rest are nil; the operand stack is empty with capacity maxStack |
| Runtime.NewFrame | book/rtda.go:142-148 | the same, failing when there are more arguments than locals |
| Runtime.Frame.Push | book/rtda.go:102-104 | appends the value when there is room, and otherwise overflows and leaves the stack unchanged |
| Runtime.Frame.Push2 | book/rtda.go:106-109 | appends the value twice when two slots are free |
| Runtime.Frame.Pop | book/rtda.go:111-113 | removes and returns the top; fails on an empty stack |
| Runtime.Frame.Pop2 | book/rtda.go:115-118 | removes the top two slots and returns the lower one |
| Runtime.Frame.Peek | book/rtda.go:120-122 | the top operand, with nothing changed |
| Runtime.Frame.PeekAt | book/rtda.go:124-126 | the operand k places below the top |
| Runtime.Frame.Get | book/rtda.go:128-130 | the local at the index, failing outside the locals |
| Runtime.Frame.Set | book/rtda.go:132-134 | writes only the local at the index and leaves the others unchanged |
| Runtime.Frame.Clear | book/rtda.go:136-140 | empties the operand stack and leaves the locals alone |
| Runtime.Thread.constructor | book/rtda.go:172-174 | no frames, room for maxStackDepth of them, an empty heap and no interned strings |
| Runtime.Thread.Push | book/rtda.go:156-158 | appends the frame when the frame stack has room, and otherwise overflows |
| Runtime.Thread.Pop | book/rtda.go:164-166 | removes and returns the top frame |
| Runtime.Thread.Peek | book/rtda.go:160-162 | the top frame |
| Runtime.Thread.IsEmpty | book/rtda.go:168-170 | true exactly when there are no frames |
| Runtime.Thread.StringLayout | book/rtda.go:564-575 | java/lang/String is loaded and has a "value" field of type [C, and the slot returned is that field's slot id |
| Runtime.Thread.NewString | book/rtda.go:561-579 | interned text is returned again without allocating; new text gets a String object followed by its char array, one int per character, stored in the slot of the String's "value" field, and is recorded |
| Runtime.FirstFrom | book/rtda.go:600-607 | the first line-table entry starting at or after pc, or none when every entry starts before it |
| Runtime.GetLineLooksAhead | book/rtda.go:600-607 | GetLine reports the next entry's line, not the covering entry's, and 0 past the last entry |
| ClassLoader.ArrayClassNames | book/loader.go:22-32 | a synthetic array class names itself, has java/lang/Object as its super, and has Cloneable and Serializable as interfaces |
| ClassLoader.FindData | book/loader.go:133-147 | the bytes of the first path that has the class; "not found" exactly when no path has it |
| ClassLoader.LayoutShape | book/loader.go:85-115 | each field of the pass gets an id from `next` on, J/D taking two, with no overlaps between fields; other fields keep their ids; the count is `next` plus the slots of the pass |
| ClassLoader.LayoutKeeps | book/loader.go:85-115 | fields outside the pass keep their ids, and the count is `next` plus the slots of the pass |
| ClassLoader.LayoutSlots | book/loader.go:85-115 | the ids of the fields in the pass lie between `next` and the count and do not overlap |
| ClassLoader.StaticConstant | book/loader.go:65-80 | Z/B/C/S/I/J/F/D give a value, with J and D two-slot; a String constant gives none; any other descriptor fails |
| ClassLoader.StaticFinalValues | book/loader.go:56-83 | every static final field with a constant holds it in its slot, and every other static slot stays nil |
| ClassLoader.StaticInitShape | book/loader.go:56-83 | each constant field not overwritten by a later static field ends up holding its constant |
| ClassLoader.WritesOnlyConstants | book/loader.go:56-83 | slots that no constant field maps to are left as they were |
| ClassLoader.StaticSlotsCovered | book/loader.go:56-83 | the static values have StaticSlotCount entries, and slots of no constant field are nil |
| ClassLoader.Loader.constructor | book/loader.go:171-186 | a loader over the given sources with an empty cache |
| ClassLoader.Loader.LoadClass | book/loader.go:20-44 | a cached name returns the cached class and changes nothing; an array name gets a fresh synthetic class with no slots; a name no source has fails as ClassNotFound of its file name; any other newly loaded class is a fresh class holding the file parsed from the first source that has it, defined under its declared name and linked (both layouts and the static constants); a declared name ends up cached; the empty name is an index out of range; classes are only ever added |
| ClassLoader.Loader.DefineClass | book/loader.go:117-131 | on success the class is cached under its own name, and its super (unless it is java/lang/Object) and every interface are settled in the cache |
| ClassLoader.Loader.LinkClass | book/loader.go:46-54 | instance slots are numbered from the super's count, then static slots from 0, then the static values are initialised |
| ClassLoader.Loader.CalcInstSlotIds | book/loader.go:99-115 | non-static fields are numbered from the super's instance slot count (0 without a super), J/D taking two, and InstSlotCount is the next free id |
| ClassLoader.Loader.CalcStaticSlotIds | book/loader.go:85-97 | static fields are numbered from 0, J/D taking two, and StaticSlotCount is the total |
| ClassLoader.Loader.NumberSlots | book/loader.go:88-96 | the numbering loop agrees with Layout |
| ClassLoader.Loader.InitStaticFinalField | book/loader.go:56-83 | the static values agree with StaticInit over StaticSlotCount nil slots; slot ids and counts are unchanged |
| Natives.Registry.Register | book/native.go:18-20 | binds the triple's key to the function, replacing any earlier binding |
| Natives.LookupAfterRegister | book/native.go:18-24 | after registering, the same key reads the new function and every other key reads as before |
| Natives.KeysCollide | book/native.go:18-24 | two different triples can share a key, because the parts are joined with '-' |
| Natives.InitNativeFuncs | book/native.go:26-44 | max, getClass and hashCode are registered under their triples, and no other key is added |
| Descriptor.SemicolonFrom | book/rtda.go:637-639 | the first ';' at or after j, failing exactly when there is none |
| Descriptor.MethodDescParser.constructor | book/rtda.go:665-667 | a parser at index 0 of the descriptor |
| Descriptor.MethodDescParser.Match | book/rtda.go:657-663 | true and one step on when the current character is the token; false with no step otherwise; fails at the end |
| Descriptor.MethodDescParser.Must | book/rtda.go:651-655 | steps over the token, and fails when it is not there |
| Descriptor.MethodDescParser.ParseType | book/rtda.go:629-649 | agrees with TypeAt |
| Descriptor.MethodDescParser.Parse | book/rtda.go:619-627 | agrees with the descriptor decoder DescAt |
| Descriptor.RefAt | book/rtda.go:636-644 | `L name ;` decodes to the name, stepping past the ';' |
| Descriptor.TypeAtIn | book/rtda.go:629-649 | a well-formed type written at a position decodes to its name and ends where its text ends |
| Descriptor.ArgsAtStep | book/rtda.go:621-624 | one turn of the argument loop appends the decoded type and goes on from its end |
| Descriptor.ArgsAtWritten | book/rtda.go:621-624 | argument types written before ')' decode to their names, ending after the ')' |
| Descriptor.DescAtRender | book/rtda.go:619-649 | a descriptor written from well-formed argument and return types decodes back to their names and consumes the whole text |
| Descriptor.DoubleIsUnknown | book/rtda.go:629-649 | a 'D' argument is refused as an unknown token |
| Descriptor.SlotCount | book/instruction.go:944-949 | between one and two slots per argument type |
| Descriptor.SlotCountAppend | book/instruction.go:944-949 | one more argument adds two slots for "D" or "J" and one otherwise |
| Descriptor.ClassNamedD | book/instruction.go:944-949 | the argument of class `D` counts two slots, as its name is "D" |
| Descriptor.IntPairExample | book/rtda.go:619-627 | "(II)I" decodes to two int arguments and an int result |
| Semantics.U8Operand | book/utils.go:26-28 | the code byte at pc, failing outside the code |
| Semantics.U16Operand | book/utils.go:30-32 | succeeds exactly when both operand bytes lie inside the method's code, with their big-endian value, and fails with IndexOutOfRange otherwise |
| Semantics.I16Operand | book/utils.go:34-36 | succeeds exactly when both operand bytes lie inside the method's code, with their signed value in -32768..32767, and fails with IndexOutOfRange otherwise |
| Semantics.ImmediatesAreUnsigned | book/instruction.go:87-97 | bipush and sipush read 0xFF and 0xFFFF as 255 and 65535, while branch offsets are signed |
| Semantics.ShuffleFaults | book/instruction.go:312-400 | a stack instruction fails with an index out of range when too few operands are present, overflows when the result does not fit, and otherwise succeeds |
| Semantics.ShuffleWindow | book/instruction.go:312-400 | a stack instruction replaces its top window by the selection of it that it pushes back |
| Semantics.SwapTwice | book/instruction.go:393-400 | swap exchanges the top two, and swapping twice restores the stack |
| Semantics.DupCopiesTop | book/instruction.go:324-330 | dup pushes a copy of the top |
| Semantics.DupX1Inserts | book/instruction.go:332-340 | dup_x1 inserts a copy of the top beneath the second |
| Semantics.DupX2Inserts | book/instruction.go:342-352 | dup_x2 inserts a copy of the top beneath the third |
| Semantics.Dup2CopiesPair | book/instruction.go:354-363 | dup2 copies the top pair |
| Semantics.Dup2X1Inserts | book/instruction.go:365-376 | dup2_x1 inserts the top pair beneath the third |
| Semantics.Dup2X2Inserts | book/instruction.go:378-391 | dup2_x2 inserts the top pair beneath the fourth |
| Semantics.Pop2PopsOneSlot | book/instruction.go:318-322 | after a two-slot push, pop2 leaves one copy behind: it behaves as pop |
| Semantics.IntBinaryOnInts | book/instruction.go:428-646 | the int handlers pop the right operand first and push IntArith of left and right; they fail only on division by zero |
| Semantics.IntDivisionExamples | book/instruction.go:492-498 | (7, 2) gives 3 for div and 1 for rem, -7 / 2 truncates to -3, and 7 - 2 is 5 |
| Semantics.LongBinaryOnPairs | book/instruction.go:420-638 | the long handlers pop two pairs and push LongArith of left and right as a pair |
| Semantics.LongCompareOnPairs | book/instruction.go:687-699 | lcmp pops two pairs and pushes 1, -1 or 0 as left >, < or = right |
| Semantics.IntNegateTwice | book/instruction.go:561-566 | ineg replaces the top int by its wrapped negation, and two inegs give back the original stack for every int. |
| Semantics.LongNegateTwice | book/instruction.go:554-559 | lneg replaces the top long pair by a pair holding its wrapped negation, and two lnegs give back the original stack for every long. |
| Semantics.FloatNegateTwice | book/instruction.go:540-552 | fneg and dneg twice restore the value |
| Semantics.IntToByteKeepsLowestBit | book/instruction.go:650-656 | i2b leaves only the lowest bit, so -1 becomes 1 and 2 becomes 0 |
| Semantics.StoreThenLoad | book/instruction.go:150-308 | a store takes the value (one or two slots) into the local, and a load of the same local pushes it back |
| Semantics.IncLocalAdds | book/instruction.go:500-506 | iinc adds the unsigned byte to an int local with 32-bit wrap and leaves the other locals alone; 0xFF adds 255 |
| Semantics.Target | book/instruction.go:660-759 | a taken branch goes to the opcode's address plus the offset, and an untaken one to the next instruction |
| Semantics.IfCompareBranches | book/instruction.go:660-743 | the int conditional branches pop their operands and branch exactly when the condition holds |
| Semantics.NullTestsComplement | book/instruction.go:1151-1169 | ifnull branches exactly on a non-reference and ifnonnull exactly on a reference |
| Semantics.IfRefsDifferIdentity | book/instruction.go:750-759 | if_acmpne branches exactly when the two references differ; two null references never branch |
| Semantics.ArrayStoreThenLoad | book/instruction.go:292-308 | an array store changes only that array, and loading the same element gives the stored value |
| Semantics.PutFieldThenGetField | book/instruction.go:844-882 | putfield changes only that object, and getfield of the slot pushes the value back in one or two slots |
| Semantics.PutStaticThenGetStatic | book/instruction.go:810-842 | putstatic writes only that static slot, and getstatic pushes the value back |
| Handlers.PopValue | book/rtda.go:111-118 | pops one slot, or a pair for a two-slot value, as PopSlots says |
| Handlers.PushValue | book/rtda.go:102-109 | pushes one slot, or a pair for a two-slot value, as PushSlots says |
| Handlers.BIPush | book/instruction.go:87-91 | pushes the unsigned byte operand and returns pc + 1 |
| Handlers.SIPush | book/instruction.go:93-97 | pushes the unsigned two-byte operand and returns pc + 2 |
| Handlers.Load | book/instruction.go:150-226 | agrees with Semantics.Load and leaves the locals alone |
| Handlers.Store | book/instruction.go:230-308 | agrees with Semantics.Store |
| Handlers.IInc | book/instruction.go:500-506 | agrees with Semantics.IncLocal and returns pc + 2 |
| Handlers.PopArgs | book/instruction.go:965-969 | pops n operands into a list with the top of the stack last; the stack was what is left plus the list |
| Handlers.PushAll | book/instruction.go:312-400 | pushes the values in order, overflowing when they do not fit |
| Handlers.StackHandler | book/instruction.go:312-400 | agrees with Semantics.Shuffle |
| Handlers.IntBinary | book/instruction.go:428-646 | agrees with Semantics.IntBinary |
| Handlers.LongBinary | book/instruction.go:420-638 | agrees with Semantics.LongBinary |
| Handlers.LongCompare | book/instruction.go:687-699 | agrees with Semantics.LongCompare |
| Handlers.FloatBinary | book/instruction.go:412-614 | agrees with Semantics.FloatBinary over the float unit |
| Handlers.DoubleBinary | book/instruction.go:404-606 | agrees with Semantics.DoubleBinary over the float unit |
| Handlers.Negate | book/instruction.go:540-566 | agrees with Semantics.Negate |
| Handlers.IntToByte | book/instruction.go:650-656 | agrees with Semantics.IntToByte |
| Handlers.IfZero | book/instruction.go:660-685 | agrees with Semantics.IfZero |
| Handlers.IfCompare | book/instruction.go:701-743 | agrees with Semantics.IfCompare |
| Handlers.IfRefsDiffer | book/instruction.go:750-759 | agrees with Semantics.IfRefsDiffer |
| Handlers.IfNullness | book/instruction.go:1151-1169 | agrees with Semantics.IfNullness |
| Handlers.ArrayLoad | book/instruction.go:212-226 | agrees with Semantics.ArrayLoad |
| Handlers.ArrayStore | book/instruction.go:292-308 | agrees with Semantics.ArrayStore on the stack and the heap |
| Handlers.ArrayLength | book/instruction.go:1094-1102 | agrees with Semantics.ArrayLength |
| Handlers.GetField | book/instruction.go:865-882 | agrees with Semantics.GetFieldValue |
| Handlers.PutField | book/instruction.go:844-863 | agrees with Semantics.PutFieldValue on the stack and the heap |
| Handlers.GetStatic | book/instruction.go:827-842 | agrees with Semantics.GetStaticValue |
| Handlers.PutStatic | book/instruction.go:810-825 | agrees with Semantics.PutStaticValue on the stack and the static values |
| Dispatch.MissingOpcodes | book/rtda.go:194-555 | an opcode has no handler exactly when it is missing from the table |
| Dispatch.TypedLocals | book/rtda.go:194-555 | the typed load and store opcodes map to one handler each, two-slot for the long and double kinds |
| Dispatch.ReturnWidths | book/rtda.go:194-555 | ireturn, freturn and areturn return one slot, lreturn and dreturn two, and return none |
| Dispatch.StepKeepsShape | book/instruction.go:21-759 | a frame-only instruction keeps the number of locals and objects; only stores and iinc change locals, and only array stores change the heap |
| Dispatch.StepNext | book/instruction.go:21-759 | the pc a frame-only instruction returns: past its operand bytes, or one of the two branch targets for a conditional branch |
| Dispatch.FrameStep | book/rtda.go:592-596 | running the handler of a frame-only instruction agrees with Step |
| Dispatch.LocalsStep | book/instruction.go:21-308 | the constant, push, load, store and iinc handlers agree with Step |
| Dispatch.BranchStep | book/instruction.go:660-759 | the conditional branch handlers agree with Step |
| Dispatch.ArrayStep | book/instruction.go:212-308 | the array load and store handlers agree with Step |
| Dispatch.MathStep | book/instruction.go:312-699 | the stack, int and long handlers agree with Step |
| Dispatch.UnitStep | book/instruction.go:404-656 | the float, double, negation and i2b handlers agree with Step |
| Instructions.ToJavaName | book/instruction.go:111-113 | every '/' becomes '.', and the length is kept |
| Instructions.JavaNameSettled | book/instruction.go:111-113 | the result has no '/', so converting twice changes nothing more |
| Instructions.MakeClassObject | book/instruction.go:115-121 | a new object of a loaded class whose slot holds the interned name; older objects stay as they were |
| Instructions.LdcValue | book/instruction.go:123-146 | ints and floats push their value, longs and doubles a pair, a String constant the interned string and a Class constant a class object with the Java name; any other tag is unsupported |
| Instructions.Ldc | book/instruction.go:99-145 | the constant at the one- or two-byte index is pushed: a number as it is, a String constant as the interned string of its text, a Class constant as a class object for its Java name; pc moves past the index |
| Instructions.Instance | book/instruction.go:791-792 | a new instance has one nil field per instance slot of its class |
| Instructions.Instantiable | book/instruction.go:784-789 | the named class, loaded, is neither an interface nor abstract |
| Instructions.New | book/instruction.go:784-794 | allocates an Instance of the named class and pushes its reference; interfaces and abstract classes fail |
| Instructions.LoadMember | book/instruction.go:796-808 | the class the reference names, loaded and cached, and its first member of the reference's name and descriptor |
| Instructions.ResolveField | book/instruction.go:796-808 | the resolved field is static exactly as the instruction needs, and its width is read from its descriptor |
| Instructions.GetStatic | book/instruction.go:827-842 | the resolved field is static and its value is pushed from its slot, two slots for J/D |
| Instructions.PutStatic | book/instruction.go:810-825 | the resolved field is static and the popped value is written to its slot |
| Instructions.GetField | book/instruction.go:865-882 | the resolved field is not static and the object's slot is pushed |
| Instructions.PutField | book/instruction.go:844-863 | the resolved field is not static and the popped value is written to the object's slot |
| Instructions.SuperName | book/instruction.go:916-925 | none exactly for a class without a super index, and otherwise the super's name |
| Instructions.IsInstance | book/instruction.go:916-925 | the answer is the outcome of the superclass walk that Decides describes, and true when the classes are equal |
| Instructions.Classify | book/instruction.go:884-899 | the walk starts from the class of the referenced object |
| Instructions.TypeTest | book/instruction.go:884-914 | the named class decides for the object on top of the stack |
| Instructions.InstanceOf | book/instruction.go:884-899 | pops the reference and pushes 1 or 0 as the walk decides, returning pc + 2 |
| Instructions.CheckCast | book/instruction.go:901-914 | decides for the reference on top of the stack, which it does not pop; succeeds exactly when the walk reaches the target, and a refusal is a class-cast failure |
| Instructions.ArrayCount | book/instruction.go:1068-1072 | the count on top of the stack; negative counts fail and nil ones are a nil dereference |
| Instructions.ArrayType | book/instruction.go:1074-1089 | newarray uses the type table, and anewarray prefixes '[' to the named class |
| Instructions.NewArrayObject | book/instruction.go:1076-1090 | an array of exactly `count` nil elements with no fields |
| Instructions.NewArray | book/instruction.go:1067-1092 | replaces the count by a new array of exactly that many nil elements, of the class cached under the array's name |
| Instructions.PopInts | book/instruction.go:1109-1111 | pops `dim` counts, the deepest first |
| Instructions.MakeMultiArray | book/instruction.go:1118-1127 | a new array shaped by the counts (level k has counts[k] elements, the last level nil elements); no counts is an index out of range and a negative first count fails |
| Instructions.MultiArray | book/instruction.go:1104-1116 | pops `dim` int counts and pushes a new array shaped by them, returning pc + 3 |
| Instructions.Return | book/instruction.go:763-766 | pops the frame and returns the stop value |
| Instructions.ReturnValue | book/instruction.go:768-780 | pops the callee and pushes its top value, one slot or a pair, onto the caller |
| Instructions.Catch | book/instruction.go:1137-1138 | FindException for a thrown object with a class; a covering entry with a nil class is a nil dereference |
| Instructions.PopThrown | book/instruction.go:1130-1134 | pops a reference to an existing object; nil fails |
| Instructions.EnterHandler | book/instruction.go:1139-1141 | the catching frame's stack holds exactly the exception object |
| Instructions.SearchTop | book/instruction.go:1135-1138 | searches the top frame's exception table at pc - 1 |
| Instructions.FindHandler | book/instruction.go:1134-1145 | pops frames until one catches, leaving a prefix of the old frames; no frames left means none caught |
| Instructions.Unwind | book/instruction.go:1134-1146 | the catching frame is on top with only the exception object and the handler pc is returned; with no catcher the exception is unhandled and no frames are left |
| Instructions.AThrow | book/instruction.go:1129-1147 | the thrown object was on top; on a catch the catching frame holds exactly it and the handler pc is returned; otherwise it is unhandled |
| Instructions.MaxOf | book/native.go:27-32 | the larger of the two ints |
| Instructions.MaxOnFrame | book/native.go:27-32 | pops two ints and pushes their maximum |
| Instructions.NativeMax | book/native.go:27-32 | the max native on the top frame |
| Instructions.ClassNameOf | book/native.go:35-36 | the receiver's class name, with slashes kept |
| Instructions.NativeGetClass | book/native.go:33-38 | replaces the receiver by a class object for its class's own name |
| Instructions.NativeHashCode | book/native.go:39-43 | replaces the receiver by the host identity of the object, truncated to 32 bits |
| Instructions.CallNative | book/instruction.go:963-964 | runs the registered native, keeping the frames |
| Instructions.ArgCount | book/instruction.go:941-955 | the slots of the descriptor's arguments, plus one for a non-static method; fails when the descriptor does not decode |
| Interpreter.TakeArgs | book/instruction.go:965-969 | the argument list is the top `count` operands of the top frame, in order |
| Interpreter.NativeOf | book/instruction.go:958-963 | the function registered under the method's triple; an unregistered triple is a nil dereference |
| Interpreter.PrintWidth | book/instruction.go:1011-1027 | the println descriptors the stand-in knows, taking two slots for J and D |
| Interpreter.PrintedText | book/instruction.go:1021-1024 | the low eight bits of each element's int, in order; fails with a nil dereference exactly when some element is nil |
| Interpreter.PrintedNewString | book/rtda.go:568-570 | the char array NewString makes for a text of byte-sized characters prints back as that text |
| Interpreter.StringBytes | book/instruction.go:1018-1025 | when the String's "value" field holds a char array, the result is exactly PrintedText of it (so a nil element is a nil dereference); a success implies that array was found; a non-object is a nil dereference |
| Interpreter.PopString | book/instruction.go:1018-1025 | pops the String argument and returns what StringBytes gives for it |
| Interpreter.PrintOnFrame | book/instruction.go:1007-1031 | pops the printed value and then the receiver; unknown descriptors fail; a printed String had a readable char array with no nil element, and one with a nil element fails |
| Interpreter.Println | book/instruction.go:1007-1031 | the println stand-in on the top frame, with the same String condition |
| Interpreter.ResolveMethod | book/instruction.go:927-939 | the method the operand names, in the class it names |
| Interpreter.InvokeMethod | book/instruction.go:957-973 | a native method runs only when it is registered under its class, name and descriptor |
| Interpreter.InvokeStatic | book/instruction.go:976-985 | the named method must be static, and pc + 2 is returned |
| Interpreter.InvokeSpecial | book/instruction.go:988-997 | the named method must not be static, and pc + 2 is returned |
| Interpreter.InvokeVirtual | book/instruction.go:1000-1034 | the named method is not static, the println stand-in is used exactly when its name is println, and pc + 2 is returned |
| Interpreter.Receiver | book/instruction.go:1047-1056 | the receiver sits argCount - 1 below the top, and its class's first method of the name and descriptor is chosen |
| Interpreter.ResolveInterface | book/instruction.go:1037-1046 | the named class is an interface and the method is not static |
| Interpreter.InvokeInterface | book/instruction.go:1037-1058 | the named method is a non-static method of an interface, and pc + 4 is returned |
| Interpreter.FrameInstr | book/rtda.go:592-596 | a frame-only instruction on the top frame agrees with Step |
| Interpreter.ThreadInstr | book/rtda.go:592-596 | nop returns pc, goto its target, and the returns the stop value |
| Interpreter.StepAt | book/rtda.go:589-596 | the opcode at pc is fetched; one with no handler fails as unknown |
| Interpreter.FetchedNext | book/rtda.go:588-597 | a trace of fetched pcs grows by the pc the handler returned |
| Interpreter.RunCode | book/rtda.go:588-597 | the loop runs from pc 0, every pc it visits holding a known opcode, until pc is past the end |
| Interpreter.PushFrame | book/rtda.go:582-583 | pushes a new frame with the arguments in the first locals, failing on too many arguments or a full thread |
| Interpreter.RunMethod | book/rtda.go:581-598 | a method without code is a nil dereference; otherwise its code runs to the end as RunCode says |

## Departures from the Java Virtual Machine Specification

The package departs from the Java Virtual Machine Specification (Java SE 8
edition) in the places below. The model does what the code does, and the
lemmas named here state the departure.

- invokevirtual runs the method the operand names, not the receiver's override (book/instruction.go:1000-1034). Only invokeinterface looks at the receiver's class (`Interpreter.Receiver`).
- bipush, sipush and iinc read their immediates unsigned (book/instruction.go:89, 95, 502). Section 6.5 of the Java Virtual Machine Specification sign-extends them (`Semantics.ImmediatesAreUnsigned`, `Semantics.IncLocalAdds`).
- i2b keeps only the lowest bit (`& 1`) and changes the Value in place (book/instruction.go:650-656). This is stated by `Semantics.IntToByteKeepsLowestBit`.
- pop2 pops one slot (book/instruction.go:318-322). This is stated by `Semantics.Pop2PopsOneSlot`.
- FindException treats the end of a range as inclusive (book/model.go:155), where section 4.7.3 makes `end_pc` exclusive. A catch-all entry (catch type 0) never matches (`Model.CatchAllNeverCatches`).
- athrow searches the caller frames with the thrower's pool and pc, and returns the handler pc to the thrower's loop (book/instruction.go:1135-1144). Only a catch in the same frame is handled as the Java Virtual Machine Specification describes.
- ParseType refuses D, F, B, C and S (book/rtda.go:629-648, `Descriptor.DoubleIsUnknown`). The "D" case of parseArgCount can then be reached only by a class named `D` (`Descriptor.ClassNamedD`).
- GetLine reports the line of the first entry that starts at or after pc, not the line of the entry covering pc (`Runtime.GetLineLooksAhead`).
- The maximum frame depth `MaxStackDepth` is a parameter of the thread, because no source file defines it.
- LoadClass caches a class (`ClassLoader.Loader.DefineClass`, book/loader.go:130) before `ClassLoader.Loader.LinkClass` lays out its slots and statics (book/loader.go:40). This is not a departure in itself: section 5.3.5 of the Java Virtual Machine Specification records a class as loaded before its section 5.4 links it. It does mean that a load of the same name during linking returns the cached class unlinked, and the model keeps that order.

## Left out

- LoadData, loadJarData, loadDirData and NewLoader read files and zip archives. The loader instead takes an ordered list of maps from class file name to bytes, and `ClassLoader.FindData` picks the first source that has the class.
- ReadAll and HandleErr in book/utils.go, and book/main.go: I/O and the program's entry point.
- RunMain (book/rtda.go:176-187) is the entry point's wiring. The parts it calls are all modelled: GetMethod, LoadClass, NewString, heap allocation and RunMethod.
- Printing: the trace line RunMethod prints, the "unknown attribute" message, and what the println stand-in writes. The stand-in's effect on the operand stack is modelled.
- Floating point: the float and double operations are a `FloatUnit` parameter of the thread, and float and double Values hold their bit patterns. Only negation is stated, as a sign-bit flip.
- Value.String and Object.String only format text.
- The hashCode native uses the host's pointer identity. That becomes the `identity` parameter of the thread.
- The back-reference from each parsed field to its class is not kept. A member is referred to by its class and index instead.
- Fuel: loading a class, the superclass walk, makeMultiArray, RunMethod and nested invocations stop with `OutOfFuel` when their fuel runs out. The Go code has no such bound; it recurses forever on a cyclic superclass chain, and it can run without end.
- Handlers.IntToByte: Value is a datatype, so i2b changing a shared Value in place is not visible through other references to it. In Go, iload pushes the local's own Value record (book/instruction.go:150-153), so after `iload_0; i2b; pop; iload_0` Go reads local 0 as `x & 1`, while the model reads `x`. `Semantics.IntToByte` and `Dispatch.UnitStep` share this limit.
- Interpreter.InvokeMethod: states that a native method is registered and that the thread stays valid. It does not state the caller's stack after a nested RunMethod, because the callee may change the heap and the loader in any way.
- Interpreter.InvokeStatic: states which method the operand names and returns pc + 2. It does not state the effect of running that method.
- Interpreter.InvokeSpecial: the same as InvokeStatic.
- Interpreter.InvokeVirtual: the same as InvokeStatic.
- Interpreter.InvokeInterface: the same as InvokeStatic; `Interpreter.Receiver` states which method is chosen.
- Interpreter.ThreadInstr: for the handlers that need the thread, states the pc only for nop, goto and the returns. Each handler's own contract gives the rest.
- Instructions.IsInstance: states the walk by the classes it visits, but does not tie the walk to the loader's cache beyond each step loading the super by name.
- Instructions.CallNative: states only that the frames are kept. NativeMax, NativeGetClass and NativeHashCode state the effect of each native.
- Instructions.AThrow: after a frame is popped, the search goes on with the thrower's pool and pc, as the code does. The model does not state how the handler pc relates to the code of the catching frame.
- The callee frame's remaining operands after a return are not stated, because the frame is discarded.
- Interpreter.ResolveInterface: a method the class does not have fails as a nil dereference when the method is resolved, before the interface test. In the Go code GetMethod returns nil and the interface test panics first, so for a non-interface class without the method the two report different panics. Both fail.
- ClassLoader.Loader.LoadClass: the freshly loaded class is described, but the contract does not say it is the one returned. Linking can load a superclass whose class file declares the same name, which replaces the cached entry.
- Slice capacity: a Go slice expression `s[lo:hi]` fails only when hi exceeds the capacity of `s`, not its length. The parser for an attribute body is built on `p.ReadBytes(n)` (book/parser.go:136), and the code array on another `ReadBytes` (book/parser.go:158). Both keep the capacity of the class file's buffer, so a read that runs past the body or the code goes on into the bytes after it. Two examples: a SourceFile attribute of length 0 followed by the bytes `00 07` reads index 7, and a sipush or a branch as the last code byte takes its operand from the bytes after the code. The model treats every buffer as ending at its length and fails there with IndexOutOfRange. The members below share this limit.
- Parser.Parser.ReadBytes: fails where Go reads on within the capacity into the following bytes of the class file.
- Parser.Parser.ReadU8: the same as ReadBytes, for one byte.
- Parser.Parser.ReadU16: the same as ReadBytes, for two bytes.
- Parser.Parser.ReadU32: the same as ReadBytes, for four bytes.
- Parser.Parser.ReadU64: the same as ReadBytes, for eight bytes.
- Parser.UIntAt: fails where Go reads past the buffer's length within its capacity.
- Parser.ReadAttributeBody: a body too short for its own fields fails, where Go reads the bytes after the body.
- Parser.Parser.ParseAttribute: the same as ReadAttributeBody.
- Parser.Parser.ParseCode: a Code body too short for its fields fails, where Go reads on past it.
- Parser.Parser.ReadU16s: an Exceptions body too short for its count fails, where Go reads on past it.
- Parser.Parser.ParseExceptions: an exception table running past the Code body fails, where Go reads on past it.
- Parser.Parser.ParseLineNumbers: a LineNumberTable running past its body fails, where Go reads on past it.
- Utils.ParseU16: requires both bytes before the sequence's length, where Go needs them only within the capacity.
- Utils.ParseI16: the same as ParseU16.
- Semantics.U16Operand: fails with IndexOutOfRange when the operand runs past the end of the code, where Go reads the bytes of the class file that follow the code.
- Semantics.I16Operand: the same as U16Operand.
- At the outermost buffer the bytes between the length and the capacity that ReadAll leaves are not determined by the class file, so no model of them is given.
