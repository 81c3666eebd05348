# goptional in Dafny

A model of `goption[T]`, the generic optional container of the Go package
`goptional`, and proofs about it.

An optional is a heap object with three fields: a slot (`ptr`), a
`present` flag and a `wrapped` flag. The slot is nil, points at a
caller-owned `T`, or, in a wrapper made by `Wrap`, refers to another
optional. The model keeps that shape:

- `Goptional.Cell<T>` is a `*T`: a heap cell the caller and the optional share.
- `Goptional.Goption<T>` is the optional. Its `slot` is `Nil`, `Ptr(cell)` or
  `Inner(optional)`. `present` is a mutable field. `wrapped` is a `const`,
  because no method assigns it after construction.
- A ghost `Repr` holds the optionals on the wrap chain. It is fixed at
  construction: `Wrap` always allocates a fresh wrapper, and a slot can later
  become nil or a `*T` but never another optional. So chains are acyclic, and
  `unwrapVal` terminates by `decreases Repr`.
- `Valid()` is the per-object invariant: `present` holds exactly when the slot
  is not nil, and only a wrapper holds another optional. Every method keeps it.
  `ChainValid()` asks it of the whole chain.
- `Resolvable()` says every wrapper down the chain still holds an optional, so
  `unwrapVal` reaches a non-wrapped optional. `Bottom()` is that optional.
- Go's type assertions that would panic become preconditions. `Exists` needs a
  slot that is not an optional. `Map`, `MapElse`, `ValOr` and `ValElse` need
  the same whenever the optional is present. `unwrapVal` and its callers need
  `Resolvable()`.
- Callbacks are function parameters. `Map`'s `fn` is `T -> T`: it replaces the
  pointee. `Exists`'s visitor is `T -> Option<E>`. Fallbacks are `() -> T`.
- `any` results (`Val`, `ValOr`, `ValElse`) are the datatype `Any<T>`. It keeps
  apart a pointer to `T`, a pointer to an optional, a plain `T` and nil.
- `encoding/json` is foreign. `MarshalJSON` takes an encoder
  `Option<T> -> Result<Bytes, E>`, where `None` is a nil `*T`. `UnmarshalJSON`
  takes a decoder `(Bytes, T) -> Decoded<T, E>`, giving the value left in the
  target and the error. It also takes the error `json.Unmarshal` reports for a
  nil target. The model states which cell is read or written and when the hooks
  short-circuit.

Module `Scenarios` proves, as client code, what the scenarios of
`goptional_test.go` assert: every test except `TestNewGoptional`, whose
non-nil result Dafny's types already give. Examples: `Map` mutates the caller's variable; `MapElse` upgrades an
absent optional; `Unwrap` sees through two wrappers; decoding through a
wrapper writes the original record; clearing the wrapped optional empties
what its wrapper resolves to.

Behaviour one might expect of an optional but that the code does not have; the model follows the code:

- `FlatMap` checks only for a nil pointer. A zero `T` is not treated as
  absent. `FlatMapElse` does no check at all on a wrapper: it hands `fn`
  whatever the chain resolves to, nil included (see its line under
  "## Left out").
- `UnmarshalJSON` never sets `present`, through a wrapper or not.
- A wrapper whose wrapped optional was cleared by `ExistsNil` does not omit its
  output. It marshals a nil `*T`, which `encoding/json` writes as `null`. Only a
  non-wrapped absent optional yields no output.
- There is no `clear`/`isPresent`. `ExistsNil` does the clearing and returns nil.

## Model

| member | source | states |
|---|---|---|
| Goptional.Goption.constructor | goptional.go:29-43 | NewGoptional: nil gives an absent, unwrapped optional with a nil slot; any other pointer gives a present, unwrapped optional holding exactly that cell; the chain invariant holds |
| Goptional.Goption.Wrapping | goptional.go:50-54 | the wrapper literal: present, wrapped, its slot refers to the wrapped optional itself, its chain is itself plus the wrapped optional's chain |
| Goptional.Wrap | goptional.go:45-55 | if `Val()` is nil the very same optional comes back; otherwise a fresh present wrapper whose slot aliases the argument, and it resolves to the same pointer as the argument |
| Goptional.Unwrap | goptional.go:57-59 | non-nil exactly when the first non-wrapped optional down the chain is present, and then it is that optional's own cell |
| Goptional.Goption.UnwrapVal | goptional.go:155-166 | equals what the bottom optional holds: non-nil iff the bottom is present, and then the bottom's slot is that pointer |
| Goptional.Goption.Bottom | goptional.go:157-159 | following wrap links ends at a non-wrapped optional of the chain whose own chain is valid |
| Goptional.UnwrapThroughWraps | goptional.go:155-166 | any number `k` of wrappers above `g` resolve to the same pointer and the same bottom as `g` |
| Goptional.BottomIsFirstUnwrapped | goptional.go:157-165 | the bottom lies some `k` links down and every optional fewer than `k` links down is a wrapper, so it is the first non-wrapped one |
| Goptional.Goption.Exists | goptional.go:63-68 | no error when absent; when present, exactly the visitor's result on the value `Val` points at |
| Goptional.Goption.ExistsNil | goptional.go:70-76 | returns nil; afterwards absent with a nil slot and the chain invariant kept; a call on an already nil slot changes nothing |
| Goptional.Goption.Map | goptional.go:81-86 | returns the same optional with its fields unchanged; when present the shared cell holds `fn` of its old value |
| Goptional.Goption.FlatMap | goptional.go:91-105 | returns the same optional, no optional on the chain changes; when the chain resolves to a pointer, that cell holds `fn` of its old value |
| Goptional.Goption.MapElse | goptional.go:113-123 | afterwards present with a pointer slot; a present optional keeps its cell and applies `fn` to it; an absent one gets a fresh cell holding `fn(el())` |
| Goptional.Goption.FlatMapElse | goptional.go:127-144 | afterwards resolves to a non-nil pointer; a resolving chain keeps its fields and cell, which holds `fn` of its old value; an unwrapped absent optional becomes present with a fresh cell holding `fn(el())` |
| Goptional.Goption.Val | goptional.go:148-153 | nil exactly when absent, never a plain value; a pointer result is the slot's cell; an optional result is the wrapped optional of a wrapper |
| Goptional.Goption.IsWrapped | goptional.go:168-170 | true for every optional holding another; when false, `Val` is nil or a pointer to `T` |
| Goptional.Goption.ValOr | goptional.go:174-179 | when present, the pointer `Val` gives, whatever the default; when absent, the default value |
| Goptional.Goption.ValElse | goptional.go:184-192 | afterwards present with a pointer slot; a present optional returns its own pointer unchanged; an absent one gets a fresh cell holding `fallback()` and returns that value itself, not a pointer |
| Goptional.Goption.MarshalJSON | goptional.go:198-208 | no output exactly for an absent unwrapped optional; otherwise the encoding of the resolved value, and of a nil pointer for a wrapper that resolves to nil |
| Goptional.MarshalOverCleared | goptional.go:198-208 | a wrapper whose chain resolves to nil marshals a nil pointer, never "no output", while the non-wrapped optional at the bottom yields no output |
| Goptional.MarshalThroughWraps | goptional.go:199-202 | a wrapper over `g` marshals exactly as `g` does when the chain resolves to a pointer |
| Goptional.FromEncoder | goptional.go:201-205 | an encoder result is never "no output"; it is bytes exactly when the encoder succeeded |
| Goptional.Goption.UnmarshalJSON | goptional.go:214-224 | no optional on the chain changes (presence is never upgraded); absent unwrapped: no error and nothing written; otherwise the decoder's value replaces the resolved cell's value and its error is returned; a wrapper resolving to nil reports the nil-target error |
| Goptional.DecodeInto | goptional.go:217-221 | `json.Unmarshal` into a `*T`: a nil pointer is refused, otherwise the decoder's value is stored and its error returned |

## Left out

- `encoding/json` itself (goptional.go:3): it is foreign, so encoding and decoding are parameters. Their byte formats are not modelled.
- Panics from failed type assertions (goptional.go:65, 83, 115, 158, 176, 186): they are preconditions; the panicking runs are not modelled.
- Goptional.Goption.Exists: the visitor is a pure function of the value. A visitor that also writes through the `*T` it receives is not modelled.
- Goptional.Goption.Map: `fn` is modelled as replacing the pointee with a new value. Effects of `fn` on anything else are not modelled. The same holds for `FlatMap`, `MapElse` and `FlatMapElse`.
- Goptional.Goption.FlatMapElse: a wrapper whose chain resolves to nil passes a nil `*T` to `fn`. `fn : T -> T` cannot receive nil, so that case is a precondition.
- The `Goptional[T]` interface versus the `goption[T]` struct, and the `&g` pointer-to-interface in `Wrap` (goptional.go:5-19, 51, 158): a wrapper refers directly to the wrapped optional.
- The dynamic type of `any`: it is the datatype `Any<T>`.
- The testify harness of goptional_test.go: the assertions of its tests are proved as client code in module `Scenarios`; the harness itself is not modelled.
