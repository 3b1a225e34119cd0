# Rust exercises: trimmed ticket accessors, wrapping `u32`, ticket status, loop factorial

A Dafny model of four small pieces of a set of Rust exercises:

- **Deref exercise ticket** (`DerefTrait`, with `StrTrim`): `Ticket::new` stores a
  title, a description and a status; the accessors `title()` and `description()`
  return the stored string with leading and trailing whitespace removed
  (`str::trim`). `status` is never normalised.
- **Copy exercise `WrappingU32`** (`CopyTrait`, with `Ints`): a `Copy` wrapper
  around a `u32` whose `+` is `u32::wrapping_add`, i.e. addition modulo 2^32.
- **Structs theory ticket** (`TicketStructs`): `is_open` compares the status with
  `"Open"`; `default` builds a ticket whose three fields are empty.
- **Loop factorial** (`LoopsFor`): `factorial(n: u32) -> u32` multiplies a `u32`
  accumulator by every `i` in `2..=n`. It is modelled as a method with a loop and
  its invariant, proved against the recursive specification `Fact`. Overflow is an
  explicit outcome: `result *= i` panics in a debug build, and the model returns
  `OverflowPanic(i)` at that point. This happens exactly when n > 12, and always at i = 13.

`str::trim` is modelled as `TrimEnd(TrimStart(s))` over `IsWhitespace`, the
Unicode `White_Space` property that `char::is_whitespace` tests. Its result is
characterised without reference to how it is computed. It is a contiguous slice
of the input with only whitespace outside it, and it has no whitespace at either
edge. `TrimCharacterised` proves that these two facts pick out exactly one string.

Where the code and its description differ: `Traits/DerefTrait/Task/src/lib.rs:23`
reads `self.title.trim())`, with a stray `)` that would not compile. The model
uses the intended `self.title.trim()`, which matches line 27 and the comment at
lines 1-2.

## Model

| member | source | states |
|---|---|---|
| `StrTrim.Trim` | Traits/DerefTrait/Task/src/lib.rs:22-28 | the result is a contiguous slice of the input with only whitespace dropped before and after it, so interior characters (interior whitespace included) are kept in place and in order; the result has no whitespace at either edge |
| `StrTrim.TrimCharacterised` | Traits/DerefTrait/Task/src/lib.rs:1-2 | a string is the trim of `s` if and only if it is `s` with only edge whitespace dropped and has no edge whitespace |
| `StrTrim.TrimKeepsTrimmed` | Traits/DerefTrait/Task/src/lib.rs:23 | a string with no whitespace at either edge is returned unchanged |
| `StrTrim.TrimIdempotent` | Traits/DerefTrait/Task/src/lib.rs:22-28 | trimming an already trimmed string returns it unchanged |
| `StrTrim.TrimEmptyIffBlank` | Traits/DerefTrait/Task/src/lib.rs:27 | the trim is empty if and only if the input is empty or all whitespace |
| `DerefTrait.New` | Traits/DerefTrait/Task/src/lib.rs:14-20 | title, description and status are stored exactly as given |
| `DerefTrait.Ticket.Title` | Traits/DerefTrait/Task/src/lib.rs:22-24 | the title read back has no leading or trailing whitespace and is the stored title with only edge whitespace dropped |
| `DerefTrait.Ticket.Description` | Traits/DerefTrait/Task/src/lib.rs:26-28 | the description read back has no leading or trailing whitespace and is the stored description with only edge whitespace dropped |
| `DerefTrait.NewReadsBackTrimmed` | Traits/DerefTrait/Task/src/lib.rs:14-28 | a new ticket's accessors give exactly the trimmed arguments; a status with edge whitespace is kept, not trimmed |
| `DerefTrait.BlankFieldsReadEmpty` | Traits/DerefTrait/Task/src/lib.rs:22-28 | an accessor returns the empty string if and only if the stored field is empty or all whitespace |
| `DerefTrait.NormalisedFieldsAreStable` | Traits/DerefTrait/Task/src/lib.rs:22-28 | storing what the accessors returned and reading again gives the same strings (normalisation is idempotent) |
| `CopyTrait.WrappingAdd` | Traits/CopyTrait/Task/src/lib.rs:17 | `wrapping_add` never fails and its result is the sum modulo 2^32, a `u32` |
| `CopyTrait.New` | Traits/CopyTrait/Task/src/lib.rs:8-10 | `new(v)` wraps `v` unchanged |
| `CopyTrait.WrappingU32.Add` | Traits/CopyTrait/Task/src/lib.rs:13-18 | `(a + b).value == (a.value + b.value) % 2^32`; the sum is below an operand if and only if it is below the other, and that happens exactly when `a.value + b.value` reaches 2^32, i.e. when the addition wrapped |
| `CopyTrait.EqualIffSameValue` | Traits/CopyTrait/Task/src/lib.rs:2-5 | two wrappers are equal if and only if their values are equal |
| `CopyTrait.AddCommutative` | Traits/CopyTrait/Task/src/lib.rs:16-18 | `a + b == b + a` |
| `CopyTrait.AddAssociative` | Traits/CopyTrait/Task/src/lib.rs:16-18 | `(a + b) + c == a + (b + c)` |
| `CopyTrait.ZeroIsIdentity` | Traits/CopyTrait/Task/src/lib.rs:8-18 | `new(0)` is a left and right identity for `+` |
| `CopyTrait.AddCancels` | Traits/CopyTrait/Task/src/lib.rs:16-18 | `a + b == a + c` if and only if `b == c`: wrapping addition loses no information |
| `TicketStructs.Default` | TicketV1/Structs/Theory/src/main.rs:14-16 | the default ticket's title, description and status are all empty |
| `TicketStructs.IsOpenOnlyReadsStatus` | TicketV1/Structs/Theory/src/main.rs:10-12 | tickets with the same status agree on `is_open`, whatever their title and description |
| `TicketStructs.Ticket.IsOpen` | TicketV1/Structs/Theory/src/main.rs:10-12 | true exactly when the status is the string "Open" |
| `TicketStructs.IsOpenIsExact` | TicketV1/Structs/Theory/src/main.rs:10-12 | status "Open" is open and every other status is not, whatever the title and description; e.g. "open", " Open" and "Open " are not open, since the comparison neither folds case nor trims |
| `TicketStructs.DefaultIsNotOpen` | TicketV1/Structs/Theory/src/main.rs:10-16 | the default ticket is not open |
| `LoopsFor.FactIsRangeProduct` | ABasicCalculator/LoopsFor/Task/src/lib.rs:4-6 | the product of the numbers in `2..=n` is n!, so the empty ranges of n = 0 and n = 1 give 1 |
| `LoopsFor.FactFitsU32Iff` | ABasicCalculator/LoopsFor/Task/src/lib.rs:3-5 | n! fits in a `u32` if and only if n <= 12 |
| `LoopsFor.Factorial` | ABasicCalculator/LoopsFor/Task/src/lib.rs:2-8 | for n <= 12 it returns n!, including 1 for n = 0 and n = 1; for n > 12 the `result *= i` overflow panic happens at i = 13; the loop keeps `result == (i - 1)!` |

## Left out

- The `Deref` mechanism that makes `str::trim` reachable from a `String` is a language feature; `trim` is modelled directly on strings.
- The accessors take `&self` and the tickets here are immutable values, so "the accessors do not change the ticket" holds by construction and has no separate lemma. For the same reason the `Copy` property that operands keep their values after `+` holds by construction.
- `is_open(self)` takes the ticket by value, which moves it in Rust; the model does not track ownership.
- Derived `Debug` and `Clone`, and the empty `main` wrapping the theory unit's ticket, have no behaviour to model.
- `LoopsFor.Factorial` models the debug-build overflow panic; a release build's wrap-around multiplication is not modelled.
- Strings are sequences of Unicode scalar values; the UTF-8 byte layout of Rust strings, and the borrowing of the returned `&str` from the ticket, are not modelled.
- The course packaging, plugin metadata and test harness have no behaviour to model.
