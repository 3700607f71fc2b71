# Rust book notes, modelled in Dafny

The repository is a set of study notes on the Rust programming language.
Each note is a small program with its own `main` and a few helper
functions. This project models the code of fourteen of them:

- the first-word scanner and string slices;
- `String`, `Vec` and `HashMap` updated in place;
- the control-flow loops;
- the Fibonacci and "Twelve Days of Christmas" exercises;
- the `Rectangle` and `User` structs;
- the `Coin` and `Option` matches;
- the functions that take, borrow and give back strings;
- the small arithmetic and shadowing programs.

Each `main` becomes a method. Its out-parameters are the values the
program computes or prints, and its `ensures` states what they are.

The standard-library types the notes use are modelled once, in their own
modules:

- `prim.dfy`: the integer types `u8`, `i32`, `u32` and `u64` as ranges,
  and `Option`.
- `utf8.dfy`: UTF-8 encoding and decoding, as described in section 3 of
  RFC 3629.
- `std_string.dfy`: `String`, a class over its UTF-8 bytes.
- `std_vec.dfy`: `Vec`, a class over an array buffer that grows.
- `std_hashmap.dfy`: `HashMap`, a class over a Dafny `map`.

Every `String` holds bytes that decode as UTF-8, and every operation on it
keeps this true (`RustString.Valid`). Text is handled as bytes because
`len()`, `as_bytes()` and slicing all count bytes. The characters, which
`chars()` yields, are `Chars(bytes)`.

Rust panics when integer arithmetic overflows in a debug build, when an
index is out of bounds, and when a slice end is not a character boundary.
Each such case becomes a precondition. Where the code returns an `Option`
instead of panicking (`Vec::get`, `HashMap::get`), the model returns one
too.

The notes discuss ownership, moves and borrowing at length, but only in
comments. The compiler enforces those rules, and no code in the repository
implements them. The model therefore follows the code: a move is a
transfer of the same object, and a borrow is a `reads` or `modifies` frame.

## Model

| member | source | states |
|---|---|---|
| Prim.Option.UnwrapOr | src/bin/8_3_hash_maps.rs:19 | `unwrap_or(d)` gives the carried value for `Some` and `d` for `None` |
| Utf8.EncodeChar | src/bin/8_2_strings.rs:45-58 | a character takes 1 to 4 bytes; it takes 1 byte exactly when it is below U+0080; a longer encoding starts with a lead byte in 0xC2..0xF4, and every later byte is a continuation byte |
| Utf8.Encode | src/bin/8_2_strings.rs:45-58 | a string's bytes decode back to the same string, and there are at least as many bytes as characters |
| Utf8.Chars | src/bin/8_2_strings.rs:53-55 | `chars()` of valid bytes re-encodes to exactly those bytes |
| Utf8.EncodeDecode | src/bin/8_2_strings.rs:45-58 | bytes that decode re-encode to themselves: decoding and encoding are inverse on valid UTF-8 |
| Utf8.DecodeIffEncode | src/bin/8_2_strings.rs:45-58 | bytes decode to `s` if and only if they are the encoding of `s` |
| Utf8.ByteLengthIsCharLengthIffAscii | src/bin/8_2_strings.rs:45-58 | the byte length equals the character count exactly when every character is ASCII |
| Utf8.ConcatChars | src/bin/8_2_strings.rs:28-30 | joining two valid byte strings gives a valid one whose characters are the two lists of characters joined |
| Utf8.SplitAtBoundary | src/4_3_slice_type.rs:89-92 | cutting valid UTF-8 at a character boundary leaves two valid halves |
| Utf8.SliceIsValid | src/4_3_slice_type.rs:89-92 | a slice between two character boundaries is valid UTF-8 |
| Utf8.AsciiIsEncode | src/4_3_slice_type.rs:61 | the one-byte-per-character form of an ASCII literal is its UTF-8 encoding |
| Utf8.AsciiChars | src/bin/8_2_strings.rs:33-35 | the characters of an ASCII literal's bytes are the literal itself |
| Utf8.AsciiBytesAreUtf8 | src/4_3_slice_type.rs:61 | bytes below 0x80 are valid UTF-8, with one character per byte |
| Utf8.AsciiBoundaries | src/4_3_slice_type.rs:89-92 | every index of ASCII text is a character boundary |
| StdString.RustString.New | src/bin/8_2_strings.rs:13 | `String::new()` is valid and empty |
| StdString.RustString.From | src/bin/8_2_strings.rs:17-25 | `String::from(s)` and `s.to_string()` hold exactly the bytes of `s` |
| StdString.RustString.Len | src/bin/4_2_references_borrowing.rs:141-143 | `len()` counts bytes: at least the number of characters, and equal to it exactly when the string is ASCII |
| StdString.RustString.PushStr | src/bin/8_2_strings.rs:28-30 | `push_str` appends all of `s` and keeps the string valid; its characters are the old ones followed by those of `s` |
| StdString.RustString.Push | src/bin/8_2_strings.rs:33-35 | `push(c)` appends the encoding of `c`, so the string gains exactly the one character `c` |
| StdString.RustString.Clear | src/4_3_slice_type.rs:69 | after `clear()` the string is empty and its length is 0 |
| StdString.RustString.Clone | src/bin/4_1_ownership.rs:211-213 | `clone()` gives a distinct new string with equal contents |
| StdString.RustString.Add | src/bin/8_2_strings.rs:40-42 | `s + &t` reuses `s`'s buffer and appends `t`; the characters are those of `s` followed by those of `t` |
| StdVec.Vec.New | src/bin/8_1_vectors.rs:5 | `Vec::new()` has no elements |
| StdVec.Vec.FromSeq | src/bin/8_1_vectors.rs:10 | `vec![..]` holds the listed elements in order |
| StdVec.Vec.Len | src/bin/8_1_vectors.rs:14-17 | `len()` is the number of elements |
| StdVec.Vec.Push | src/bin/8_1_vectors.rs:14-16 | `push(x)` places `x` last and keeps the earlier elements; a full buffer is replaced by a fresh larger one |
| StdVec.Vec.Index | src/bin/8_1_vectors.rs:22 | `&v[i]` is defined only for `i < len()`, and gives the element at `i` |
| StdVec.Vec.Get | src/bin/8_1_vectors.rs:25-29 | `get(i)` is `Some` exactly when `i < len()`, and then carries `v[i]` |
| StdHashMap.HashMap.New | src/bin/8_3_hash_maps.rs:12 | `HashMap::new()` has no entries |
| StdHashMap.HashMap.Get | src/bin/8_3_hash_maps.rs:18-19 | `get(k)` is `Some` exactly when `k` is a key, and then carries its value |
| StdHashMap.HashMap.Insert | src/bin/8_3_hash_maps.rs:40-42 | `insert(k, v)` maps `k` to `v`, keeps every other key's value, and returns the value it replaced |
| StdHashMap.HashMap.EntryOrInsert | src/bin/8_3_hash_maps.rs:45-47 | `entry(k).or_insert(d)` inserts `d` only when `k` is absent; an existing entry is left untouched, and the value now under `k` is returned |
| SliceType.FirstSpace | src/4_3_slice_type.rs:111-129 | the index is at most the length; when it is below the length, the byte there is a space and no earlier byte is; it equals the length exactly when there is no space |
| SliceType.FirstWord | src/4_3_slice_type.rs:111-129 | the scan returns the index of the first space, or the length when there is none |
| SliceType.FirstWord2 | src/4_3_slice_type.rs:133-142 | the result is the valid prefix up to the first space, or the whole string when there is no space |
| SliceType.FirstWord3 | src/4_3_slice_type.rs:148-157 | the same prefix as `first_word_2`, for any `&str` |
| SliceType.StrSlice | src/4_3_slice_type.rs:89-92 | `&s[a..b]` between character boundaries is valid UTF-8, has length `b - a`, and holds bytes `a` to `b` |
| SliceType.FirstSpaceIsCharBoundary | src/4_3_slice_type.rs:138 | the end of the first word is always a character boundary, so `&s[0..i]` never panics |
| SliceType.HelloWorldFirstSpace | src/4_3_slice_type.rs:61-63 | the first word of "hello world" ends at 5 |
| SliceType.SliceTypeMain | src/4_3_slice_type.rs:57-102 | the three scans of "hello world" give 5 and "hello"; after `clear()` the length is 0, so 5 is out of range; `&s[0..5]` is "hello", `&s[6..11]` is "world" and `&s[..]` is the whole string; `&a[1..3]` of `[1, 2, 3, 4, 5]` is `[2, 3]` |
| HashMaps.WordEnd | src/bin/8_3_hash_maps.rs:52 | a word ends at the first whitespace byte or at the end of the text, and holds no whitespace |
| HashMaps.SplitWhitespace | src/bin/8_3_hash_maps.rs:52 | every word of `split_whitespace()` is non-empty and free of whitespace |
| HashMaps.SplitWhitespaceUtf8 | src/bin/8_3_hash_maps.rs:50-52 | every word split from a `&str` is itself valid UTF-8 |
| HashMaps.SplitJoin | src/bin/8_3_hash_maps.rs:52 | words joined by single spaces split back into the same words |
| HashMaps.WordCounts | src/bin/8_3_hash_maps.rs:51-55 | every count held after the loop is at least 1 and at most the number of words |
| HashMaps.WordCountsSpec | src/bin/8_3_hash_maps.rs:52-55 | after the loop, the keys are exactly the words of the text, and each count is that word's number of occurrences |
| HashMaps.TotalIsWordCount | src/bin/8_3_hash_maps.rs:52-55 | the counts add up to the number of words |
| HashMaps.CountWords | src/bin/8_3_hash_maps.rs:50-55 | the `entry(word).or_insert(0)` and `+= 1` loop builds exactly the word counts of the text |
| HashMaps.TextWordCounts | src/bin/8_3_hash_maps.rs:50-56 | "Hello world wonderful world" counts Hello 1, world 2 and wonderful 1 |
| HashMaps.HashMapsMain | src/bin/8_3_hash_maps.rs:3-58 | looking up "Blue" gives 10; overwriting "Blue" with 10 and then 25 leaves Blue 25 and Yellow 50; `or_insert(50)` changes neither; the field map holds its one entry; the word counts are as above |
| Vectors.AddToEach | src/bin/8_1_vectors.rs:37-40 | the `for i in &mut v` loop adds the same amount to every element in place and keeps the length |
| Vectors.VectorsMain | src/bin/8_1_vectors.rs:1-40 | `Vec::new()` is empty; `vec![1, 2, 3]` is `[1, 2, 3]`; after pushing 5, 6 and 7 the vector is `[5, 6, 7]`, `&v1[2]` is 7 and `get(2)` is `Some(7)`; adding 50 gives `[55, 56, 57]` |
| ControlFlow.Classify | src/3_5_control_flow.rs:17-25 | each branch of the `else if` chain runs exactly when its test holds and every earlier test fails |
| ControlFlow.DivisibleBy2MeansTwoModFour | src/3_5_control_flow.rs:17-25 | the "divisible by 2" branch is reached only by numbers that are 2 modulo 4 |
| ControlFlow.BreakWithValue | src/3_5_control_flow.rs:61-67 | with `i32` variables and a stop value from 1 to `i32::MAX / 2` (so `counter * 2` cannot overflow), the loop runs until `counter` reaches the stop value, and `break counter * 2` yields twice that value |
| ControlFlow.CountingUp | src/3_5_control_flow.rs:75-89 | passes 0 and 1 print `remaining` 10, 9 and 8; pass 2 prints 10 and leaves through `break 'counting_up`; `count` ends at 2 |
| ControlFlow.Countdown | src/3_5_control_flow.rs:94-98 | the `while` loop prints `start`, `start - 1`, ..., 1, one value per iteration, and ends at 0 |
| ControlFlow.ForEach | src/3_5_control_flow.rs:104-105 | the `for` loop visits the array's elements in index order |
| ControlFlow.ControlFlowMain | src/3_5_control_flow.rs:1-106 | `3 < 5` takes the first branch; 6 is reported divisible by 3 although it is even; the `if` expression gives 5; the loop breaks with 20; `count` ends at 2; the countdown prints 3, 2, 1; the `for` loop prints 10 to 50 |
| Exercises.Fib | src/3_programming_concepts_exercises.rs:21-30 | the Fibonacci numbers computed by `fibo_n` are positive from F(1) on, and F(k) is at least `k - 1` from F(2) on, so they grow without bound |
| Exercises.FiboN | src/3_programming_concepts_exercises.rs:21-30 | `fibo_n(n)` is the Fibonacci number F(n - 1) for `1 <= n <= 94`; `n == 0` underflows and larger `n` overflow `u64` |
| Exercises.Fib93And94 | src/3_programming_concepts_exercises.rs:28 | F(93) fits in a `u64` and F(94) does not, so 94 is the largest `n` for which the sum does not overflow |
| Exercises.FibFitsU64 | src/3_programming_concepts_exercises.rs:28 | every F(k) with `k <= 93` fits in a `u64` |
| Exercises.FibMonotone | src/3_programming_concepts_exercises.rs:21-30 | the Fibonacci numbers never decrease |
| Exercises.Verse | src/3_programming_concepts_exercises.rs:50-53 | day `d` prints `d` gift lines, the last of which is the first gift |
| Exercises.VerseLists | src/3_programming_concepts_exercises.rs:48-54 | the `k`-th gift line of day `d` is `gifts[d - 1 - k]`: from `gifts[d - 1]` down to `gifts[0]` |
| Exercises.Song | src/3_programming_concepts_exercises.rs:48-54 | the song up to day `days` has at least two lines per day; a non-empty song opens with the header of day 1 and closes with the first gift |
| Exercises.SongLength | src/3_programming_concepts_exercises.rs:48-54 | `days` days print `days` header lines and 1 + 2 + ... + `days` gift lines |
| Exercises.TwelveDays | src/3_programming_concepts_exercises.rs:32-55 | the nested loops print each day's header followed by its verse, with every index below 12 |
| Exercises.ExercisesMain | src/3_programming_concepts_exercises.rs:7-10 | `fibo_n(13)` is 144, and the song covers all twelve days |
| MethodSyntax.Rectangle.Area | src/5_3_method_syntax.rs:98 | the area is defined when `width * height` fits in `u32`; it is 0 exactly when a side is 0, and otherwise at least either side |
| MethodSyntax.Rectangle.HasWidth | src/5_3_method_syntax.rs:101 | `width()` is false only for a rectangle of area 0; for a rectangle of nonzero height it is true exactly when the area is nonzero |
| MethodSyntax.Rectangle.CanHold | src/5_3_method_syntax.rs:104-106 | a rectangle that can hold another has both sides nonzero and a strictly larger `width * height` |
| MethodSyntax.Square | src/5_3_method_syntax.rs:109-114 | `square(size)` has width and height `size`; `width()` is true for it exactly when `size > 0` |
| MethodSyntax.CanHoldHasWidth | src/5_3_method_syntax.rs:101-106 | a rectangle that can hold another has a nonzero width and height |
| MethodSyntax.CanHoldIrreflexive | src/5_3_method_syntax.rs:104-106 | no rectangle can hold itself |
| MethodSyntax.CanHoldAsymmetric | src/5_3_method_syntax.rs:104-106 | two rectangles never hold each other |
| MethodSyntax.CanHoldTransitive | src/5_3_method_syntax.rs:104-106 | if `r` holds `s` and `s` holds `t`, then `r` holds `t` |
| MethodSyntax.CanHoldLargerArea | src/5_3_method_syntax.rs:98-106 | a rectangle that holds another has a strictly larger area |
| MethodSyntax.SquareCanHold | src/5_3_method_syntax.rs:104-114 | `square(a)` holds `square(b)` exactly when `a > b` |
| MethodSyntax.MethodSyntaxMain | src/5_3_method_syntax.rs:117-136 | `rect1` has area 1500 and a nonzero width; it holds `rect2` but not `rect3`; `square(10)` is 10 by 10 |
| StructExample.Area1 | src/bin/5_2_example_program_using_struct.rs:91 | the area is defined when the product fits in `u32`, and is 0 exactly when a side is 0 |
| StructExample.Area2 | src/bin/5_2_example_program_using_struct.rs:92 | the tuple version equals `area1` of the tuple's two fields |
| StructExample.Area3 | src/bin/5_2_example_program_using_struct.rs:93 | the struct version equals `area1` of the struct's two fields |
| StructExample.AreasAgree | src/bin/5_2_example_program_using_struct.rs:91-93 | `area1(w, h)`, `area2((w, h))`, `area3(&Rectangle { w, h })` and the `area` method all agree |
| StructExample.Area1Monotone | src/bin/5_2_example_program_using_struct.rs:91 | enlarging either side cannot shrink the area |
| StructExample.Dbg | src/bin/5_2_example_program_using_struct.rs:63-70 | `dbg!(e)` returns `e` unchanged |
| StructExample.StructExampleMain | src/bin/5_2_example_program_using_struct.rs:1-73 | all three versions give 1500 for 30 by 50; `rect3` is 60 by 50 |
| MatchControlFlow.ValueInCents | src/bin/6_2_match_control_flow_construct.rs:120-141 | a coin is worth one of 1, 5, 10 or 25 cents, and 25 exactly when it is a quarter, whatever its state |
| MatchControlFlow.ValueIdentifiesKind | src/bin/6_2_match_control_flow_construct.rs:120-141 | two coins are worth the same exactly when they are the same kind of coin |
| MatchControlFlow.PlusOne | src/bin/6_2_match_control_flow_construct.rs:143-149 | `plus_one(None)` is `None`, and `plus_one(Some(i))` is `Some(i + 1)` when `i < i32::MAX` |
| MatchControlFlow.DiceWithBinding | src/bin/6_2_match_control_flow_construct.rs:83-88 | 3 adds a fancy hat, 7 removes it, and any other roll `v` moves the player `v` spaces |
| MatchControlFlow.DiceWithWildcard | src/bin/6_2_match_control_flow_construct.rs:95-100 | on an `i32` roll, 3 adds a fancy hat, 7 removes it, and any other roll rolls again |
| MatchControlFlow.DiceFormsAgree | src/bin/6_2_match_control_flow_construct.rs:83-100 | the two matches differ only in their catch-all arm |
| MatchControlFlow.MatchMain | src/bin/6_2_match_control_flow_construct.rs:68-102 | `plus_one(Some(5))` is `Some(6)` and `plus_one(None)` is `None`; a roll of 9 moves 9 spaces; a roll of 10 rolls again |
| Structs.BuildUser | src/bin/5_1_defining_and_instantiating_structs.rs:154-162 | the user is active with one sign-in, and `email` and `username` come from the parameters of the same name |
| Structs.BuildUserShorthand | src/bin/5_1_defining_and_instantiating_structs.rs:165-173 | the shorthand builds the same user as `build_user` |
| Structs.BuildUserInjective | src/bin/5_1_defining_and_instantiating_structs.rs:154-162 | two users built by `build_user` are equal exactly when their arguments are |
| Structs.AssignEmailKeepsOthers | src/bin/5_1_defining_and_instantiating_structs.rs:116 | assigning `email` changes that field only |
| Structs.StructsMain | src/bin/5_1_defining_and_instantiating_structs.rs:99-151 | `user2` differs from `user1` only in its new email; "pierre" is passed as the email, so `pierre1.email` is "pierre"; `pierre2` equals `pierre1`; `user3` has a new email and takes its other three fields from `user1` |
| ReferencesBorrowing.CalculateLength | src/bin/4_2_references_borrowing.rs:141-143 | the length in bytes, read through a shared reference; the function reads the string and cannot change it |
| ReferencesBorrowing.Change | src/bin/4_2_references_borrowing.rs:146-148 | the string becomes its old contents followed by ", world": seven more bytes, with the old contents as a prefix |
| ReferencesBorrowing.ReferencesMain | src/bin/4_2_references_borrowing.rs:79-97 | the length of "hello" is 5 and `s1` is unchanged; `change` turns "hello" into "hello, world" |
| Ownership.CalculateLength | src/bin/4_1_ownership.rs:256-261 | the same string is handed back, with its length in bytes |
| Ownership.TakesAndGivesBack | src/bin/4_1_ownership.rs:279-282 | the argument is returned unchanged |
| Ownership.GivesOwnership | src/bin/4_1_ownership.rs:263-270 | a new string "yours" |
| Ownership.OwnershipMain | src/bin/4_1_ownership.rs:131-252 | `push_str(", world!")` on "hello" gives "hello, world!"; after `let y = x` both are 5; the clone is a distinct string with equal contents; `gives_ownership` gives "yours"; `takes_and_gives_back` and `calculate_length` hand "hello" back, with length 5 |
| Strings.EteBytes | src/bin/8_2_strings.rs:53-58 | "été" has 3 characters but 5 bytes, because each "é" takes two bytes |
| Strings.StringsMain | src/bin/8_2_strings.rs:1-60 | `String::new()` is empty; `to_string` and `String::from` agree; `push_str` and `push('A')` on empty strings give the literal and "A"; `s8 + &s9` is "Hello, World!" with `s9` unchanged; "été" gives 3 chars and 5 bytes |
| Functions.Five | src/3_3_functions.rs:117-119 | `five()` is 5 |
| Functions.PlusOne | src/3_3_functions.rs:121-123 | `plus_one(x)` is greater than `x`, and is defined when `x < i32::MAX` |
| Functions.FunctionsMain | src/3_3_functions.rs:76-98 | the block `{ let x = 3; x + 1 }` is 4, `five()` is 5 and `plus_one(5)` is 6 |
| Variables.VariablesMain | src/3_1_variables_mutability.rs:48-92 | the mutable `x` goes from 5 to 6; the constant is 10800; shadowing gives 6, the inner scope sees 12 and the outer `x` is 6 again; `spaces.len()` is 4 |

## Left out

- Ownership, moves, borrowing, lifetimes and `drop`: the compiler
  enforces them and no code implements them. A moved binding is simply
  not used again, and the commented-out examples that break the rules
  are not modelled.
- Console output. `println!` and `stringify!` produce no values; `dbg!`
  returns its argument, which `StructExample.Dbg` models, but what it
  prints to standard error is left out. Where a loop's printed lines carry
  its behaviour (control flow, `twelve_days`), they are returned as a
  sequence. The functions that only print are not modelled:
  `another_function`, `yet_another_function`,
  `print_labelled_measurement`, `takes_ownership` and `makes_copy`.
  Neither are the print-only loops: `for i in &v1`, iteration over
  `&scores`, and `for i in 1..5 { dbg!(i); }`.
- `add_fancy_hat`, `remove_fancy_hat`, `move_player` and `roll_again` have
  empty bodies. A call to one of them is modelled as the `Action` value
  that names it, which the dice matches return.
- Floating point: `c_to_f` and `f_to_c`, and the `SpreadSheetCell` row
  with its `Float` cell.
- src/bin/3_2_data_types.rs, src/bin/6_1_defining_an_enum.rs and
  src/bin/6_3_concise_control_flow_with_if_let.rs are not part of this
  model. They only declare types, read standard input or print.
- `HashMap` hashing and iteration order, which Rust leaves arbitrary. The
  entries are a Dafny `map`.
- The heap layout of `String` and `Vec`: buffer address, capacity and
  allocator. The `Vec` buffer's growth policy is a model choice, and only
  its contents are specified.
- The types of `Color` and `Point`: Dafny's type checker keeps them
  apart, as Rust's does, but no lemma can state that two types differ.
- Panics: each is a precondition. The model does not describe what
  happens after one.
- HashMaps.SplitWhitespace: splits only at the ASCII whitespace bytes
  (space, tab, line feed, vertical tab, form feed, carriage return). It
  ignores the non-ASCII `White_Space` characters that Rust's
  `split_whitespace` also accepts, none of which occur in the text of
  `main`.
- StdHashMap.HashMap.EntryOrInsert: returns a copy of the value under the
  key, not the `&mut` reference that `or_insert` gives. The `*count += 1`
  through that reference is modelled in `HashMaps.CountWords` as a second
  `Insert` of the incremented count under the same key, which leaves the
  map in the same state. Aliasing through the reference is not captured.
- HashMaps.CountWords: the counts are unbounded integers. The `i32`
  overflow that would follow 2^31 - 1 occurrences of one word is not
  modelled.
