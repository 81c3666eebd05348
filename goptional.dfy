/**
  The generic optional container `goption[T]` (goptional.go).

  An optional owns three fields: a slot `ptr`, a flag `present` and a flag
  `wrapped`. The slot is empty, holds a pointer to a caller-owned `T`, or,
  in an optional built by `Wrap`, holds another optional. A pointer to `T`
  is a `Cell`; a wrapper refers to the very optional it wraps, so changes
  made through either are seen through both.
 */
module Goptional {
  import opened Wrappers

  /** Bytes as `encoding/json` produces and consumes them. */
  type Bytes = seq<bv8>

  /** A `*T`: a heap cell owned by the caller and shared with the optional. */
  class Cell<T> {
    var value: T

    constructor (value: T)
      ensures this.value == value
    {
      this.value := value;
    }
  }

  /** What the `ptr` field holds: nil, a `*T`, or (in a wrapper) another optional. */
  datatype Slot<T> = Nil | Ptr(cell: Cell<T>) | Inner(inner: Goption<T>)

  /** The dynamically typed `any` that `Val`, `ValOr` and `ValElse` return. */
  datatype Any<T> = NilAny | PtrTo(cell: Cell<T>) | OptionalPtr(opt: Goption<T>) | Plain(value: T)

  /** What `MarshalJSON` returns: `(nil, nil)`, `(bytes, nil)` or `(nil, err)`. */
  datatype Marshalled<E> = Omitted | Encoded(data: Bytes) | Failed(err: E)

  /** What `json.Unmarshal` leaves in the target value, and the error it reports. */
  datatype Decoded<T, E> = Decoded(value: T, err: Option<E>)

  /** The marshalled form of a result from `json.Marshal`. */
  function FromEncoder<E>(res: Result<Bytes, E>): (m: Marshalled<E>)
    ensures m != Omitted
    ensures res.Success? <==> m.Encoded?
    ensures m.Encoded? ==> m.data == res.value
    ensures m.Failed? ==> m.err == res.error
  {
    match res
    case Success(b) => Encoded(b)
    case Failure(e) => Failed(e)
  }

  class Goption<T> {
    var slot: Slot<T>
    var present: bool
    /** Set once at construction; no method assigns it afterwards. */
    const wrapped: bool
    /** The optionals on the wrap chain that starts here. */
    ghost const Repr: set<Goption<T>>

    /** The invariant every method keeps on the optional it runs on. */
    ghost predicate Valid()
      reads this
    {
      && this in Repr
      && (present <==> !slot.Nil?)
      && (slot.Inner? ==> wrapped && slot.inner in Repr && slot.inner.Repr < Repr)
    }

    /** Every optional on the wrap chain keeps its invariant. */
    ghost predicate ChainValid()
      reads Repr
    {
      this in Repr && forall g :: g in Repr ==> g.Valid()
    }

    /** Every wrapper down the chain still holds an optional, so `unwrapVal`
        can walk to a non-wrapped optional without a failed type assertion. */
    ghost predicate Resolvable()
      requires ChainValid()
      reads Repr
      decreases Repr
    {
      wrapped ==> slot.Inner? && slot.inner.Resolvable()
    }

    /** The cell this optional's own slot points at, as a frame. */
    ghost function PtrCells(): set<object>
      reads this
    {
      if slot.Ptr? then {slot.cell} else {}
    }

    /** The pointer a non-wrapped optional yields: its cell when present. */
    function Held(): Cell?<T>
      reads this
    {
      if present && slot.Ptr? then slot.cell else null
    }

    /** The first non-wrapped optional reached by following wrap links. */
    ghost function Bottom(): (b: Goption<T>)
      requires ChainValid() && Resolvable()
      reads Repr
      ensures b in Repr && b.Repr <= Repr && !b.wrapped && b.ChainValid()
      decreases Repr
    {
      if wrapped then slot.inner.Bottom() else this
    }

    /** `g` is reached from this optional by following exactly `k` wrap links. */
    ghost predicate WrapsOver(g: Goption<T>, k: nat)
      requires ChainValid()
      reads Repr
      decreases k
    {
      if k == 0 then g == this
      else wrapped && slot.Inner? && slot.inner.WrapsOver(g, k - 1)
    }

    /** The cell that `unwrapVal` resolves to, as a frame. */
    ghost function Target(): set<object>
      requires ChainValid() && Resolvable()
      reads Repr
    {
      if UnwrapVal() == null then {} else {UnwrapVal()}
    }

    /** NewGoptional: a nil pointer gives an absent optional, any other
        pointer a present one that shares that very cell. */
    constructor (opt: Cell?<T>)
      ensures ChainValid() && Resolvable() && Repr == {this}
      ensures !wrapped
      ensures opt == null ==> !present && slot.Nil?
      ensures opt != null ==> present && slot == Ptr(opt)
    {
      if opt == null {
        slot, present, wrapped := Nil, false, false;
      } else {
        slot, present, wrapped := Ptr(opt), true, false;
      }
      Repr := {this};
    }

    /** The wrapper `Wrap` allocates around a present optional. */
    constructor Wrapping(g: Goption<T>)
      requires g.ChainValid()
      ensures ChainValid() && Repr == {this} + g.Repr
      ensures wrapped && present && slot == Inner(g)
    {
      slot, present, wrapped := Inner(g), true, true;
      Repr := {this} + g.Repr;
    }

    /** Exists: hands the stored value to `visit` when the slot is not nil
        and reports what it returns; an empty optional reports no error. */
    function Exists<E>(visit: T -> Option<E>): (err: Option<E>)
      requires Valid() && !slot.Inner?
      reads this, PtrCells()
      ensures !present ==> err == None
      ensures present ==> Val().PtrTo? && err == visit(Val().cell.value)
    {
      match slot
      case Ptr(c) => visit(c.value)
      case _ => None
    }

    /** ExistsNil: clears the slot and the presence flag, returns nil. */
    method ExistsNil() returns (r: Goption?<T>)
      requires ChainValid()
      modifies this
      ensures ChainValid() && r == null
      ensures !present && slot.Nil?
      ensures old(slot).Nil? ==> unchanged(this)
    {
      if !slot.Nil? {
        slot := Nil;
        present := false;
      }
      r := null;
    }

    /** Map: when present, replaces the shared value by `fn` of it; the
        optional's own fields do not change and it is returned. */
    method Map(fn: T -> T) returns (r: Goption<T>)
      requires ChainValid() && !(present && slot.Inner?)
      modifies PtrCells()
      ensures r == this && unchanged(this)
      ensures present ==> slot.Ptr? && slot.cell.value == fn(old(slot.cell.value))
    {
      if present && !slot.Nil? {
        var c := slot.cell;
        c.value := fn(c.value);
      }
      r := this;
    }

    /** FlatMap: like Map, on the cell `unwrapVal` resolves to, when it is not nil. */
    method FlatMap(fn: T -> T) returns (r: Goption<T>)
      requires ChainValid() && Resolvable()
      modifies Target()
      ensures r == this && unchanged(Repr)
      ensures UnwrapVal() != null ==> UnwrapVal().value == fn(old(UnwrapVal().value))
    {
      var v: Cell?<T> := null;
      if wrapped {
        v := UnwrapVal();
      } else if present && !slot.Nil? {
        v := slot.cell;
      }
      if v != null {
        v.value := fn(v.value);
      }
      r := this;
    }

    /** MapElse: when present, behaves as Map; otherwise installs a fresh
        cell holding `fn(el())` and becomes present. */
    method MapElse(fn: T -> T, el: () -> T) returns (r: Goption<T>)
      requires ChainValid() && !(present && slot.Inner?)
      modifies this, PtrCells()
      ensures r == this && ChainValid()
      ensures present && slot.Ptr?
      ensures old(present) ==> slot == old(slot) && slot.cell.value == fn(old(slot.cell.value))
      ensures !old(present) ==> fresh(slot.cell) && slot.cell.value == fn(el())
    {
      if present && !slot.Nil? {
        var c := slot.cell;
        c.value := fn(c.value);
      } else {
        var v := el();
        var c := new Cell(fn(v));
        slot := Ptr(c);
        present := true;
      }
      r := this;
    }

    /** FlatMapElse: like MapElse, on the cell `unwrapVal` resolves to; only
        a non-wrapped absent optional gets the fallback installed. */
    method FlatMapElse(fn: T -> T, el: () -> T) returns (r: Goption<T>)
      requires ChainValid() && Resolvable()
      requires wrapped ==> UnwrapVal() != null
      modifies this, Target()
      ensures r == this && ChainValid() && Resolvable() && UnwrapVal() != null
      ensures old(UnwrapVal()) != null ==>
        && slot == old(slot) && present == old(present)
        && UnwrapVal() == old(UnwrapVal())
        && UnwrapVal().value == fn(old(UnwrapVal().value))
      ensures old(UnwrapVal()) == null ==>
        && !wrapped && present && fresh(UnwrapVal())
        && UnwrapVal().value == fn(el())
    {
      var v: Cell<T>;
      if wrapped {
        v := UnwrapVal();
      } else if present && !slot.Nil? {
        v := slot.cell;
      } else {
        var t := el();
        v := new Cell(t);
        slot := Ptr(v);
        present := true;
      }
      v.value := fn(v.value);
      r := this;
    }

    /** Val: the slot's pointer when present, nil otherwise. */
    function Val(): (r: Any<T>)
      requires Valid()
      reads this
      ensures r.NilAny? <==> !present
      ensures !r.Plain?
      ensures r.PtrTo? ==> slot == Ptr(r.cell)
      ensures r.OptionalPtr? ==> wrapped && slot == Inner(r.opt)
    {
      if present && !slot.Nil? then
        match slot
        case Ptr(c) => PtrTo(c)
        case Inner(g) => OptionalPtr(g)
      else NilAny
    }

    /** unwrapVal: follows wrap links to the first non-wrapped optional and
        returns its pointer if it is present, nil otherwise. */
    function UnwrapVal(): (r: Cell?<T>)
      requires ChainValid() && Resolvable()
      reads Repr
      ensures r == Bottom().Held()
      ensures r != null <==> Bottom().present
      ensures r != null ==> Bottom().slot == Ptr(r)
      decreases Repr
    {
      if wrapped then slot.inner.UnwrapVal()
      else if present && !slot.Nil? then slot.cell
      else null
    }

    /** isWrapped: reports the flag, which every optional holding another has. */
    function IsWrapped(): (b: bool)
      requires Valid()
      reads this
      ensures b <==> wrapped
      ensures !b ==> Val().NilAny? || Val().PtrTo?
    {
      wrapped
    }

    /** ValOr: the stored pointer when present, else the default value. */
    function ValOr(or: T): (r: Any<T>)
      requires Valid() && !(present && slot.Inner?)
      reads this
      ensures present ==> r.PtrTo? && r == Val()
      ensures !present ==> r == Plain(or)
    {
      if present && !slot.Nil? then PtrTo(slot.cell) else Plain(or)
    }

    /** ValElse: the stored pointer when present; otherwise installs a fresh
        cell holding `fallback()`, becomes present and returns that value
        itself rather than a pointer to it. */
    method ValElse(fallback: () -> T) returns (r: Any<T>)
      requires ChainValid() && !(present && slot.Inner?)
      modifies this
      ensures ChainValid() && present && slot.Ptr?
      ensures old(present) ==> slot == old(slot) && r == PtrTo(slot.cell)
      ensures !old(present) ==> fresh(slot.cell) && slot.cell.value == fallback() && r == Plain(fallback())
    {
      if present && !slot.Nil? {
        return PtrTo(slot.cell);
      }
      var t := fallback();
      var c := new Cell(t);
      slot := Ptr(c);
      present := true;
      r := Plain(t);
    }

    /** MarshalJSON: a wrapper encodes the pointer `unwrapVal` resolves to
        (`encode(None)` stands for a nil `*T`); a present optional encodes
        its own value; an absent one yields no output and no error. */
    function MarshalJSON<E>(encode: Option<T> -> Result<Bytes, E>): (r: Marshalled<E>)
      requires ChainValid() && Resolvable()
      reads Repr, Target()
      ensures r == Omitted <==> !wrapped && !present
      ensures UnwrapVal() != null ==> r == FromEncoder(encode(Some(UnwrapVal().value)))
      ensures wrapped && UnwrapVal() == null ==> r == FromEncoder(encode(None))
    {
      if wrapped then
        var v := UnwrapVal();
        FromEncoder(encode(if v == null then None else Some(v.value)))
      else if present && !slot.Nil? then
        FromEncoder(encode(Some(slot.cell.value)))
      else
        Omitted
    }

    /** UnmarshalJSON: decodes into the cell `unwrapVal` resolves to; an
        absent, non-wrapped optional is left as it is and reports no error.
        The optional's own fields never change, so presence is never upgraded. */
    method UnmarshalJSON<E>(data: Bytes, decode: (Bytes, T) -> Decoded<T, E>, nilTarget: E)
      returns (err: Option<E>)
      requires ChainValid() && Resolvable()
      modifies Target()
      ensures unchanged(Repr)
      ensures !wrapped && !present ==> err == None
      ensures UnwrapVal() != null ==>
        && UnwrapVal().value == decode(data, old(UnwrapVal().value)).value
        && err == decode(data, old(UnwrapVal().value)).err
      ensures wrapped && UnwrapVal() == null ==> err == Some(nilTarget)
    {
      if wrapped {
        err := DecodeInto(UnwrapVal(), data, decode, nilTarget);
      } else if present && !slot.Nil? {
        err := DecodeInto(slot.cell, data, decode, nilTarget);
      } else {
        err := None;
      }
    }
  }

  /** `json.Unmarshal(data, v)` for a `*T`: a nil pointer is refused with
      `nilTarget`; otherwise the decoder's result replaces the value. */
  method DecodeInto<T, E>(v: Cell?<T>, data: Bytes, decode: (Bytes, T) -> Decoded<T, E>, nilTarget: E)
    returns (err: Option<E>)
    modifies if v == null then {} else {v}
    ensures v == null ==> err == Some(nilTarget)
    ensures v != null ==> v.value == decode(data, old(v.value)).value && err == decode(data, old(v.value)).err
  {
    if v == null {
      return Some(nilTarget);
    }
    var d := decode(data, v.value);
    v.value := d.value;
    err := d.err;
  }

  /** Wrap: an optional whose `Val` is nil comes back as the very same
      object; any other is referenced (not copied) by a fresh wrapper. */
  method Wrap<T>(g: Goption<T>) returns (w: Goption<T>)
    requires g.ChainValid()
    ensures w.ChainValid()
    ensures g.Val().NilAny? ==> w == g
    ensures !g.Val().NilAny? ==>
      && fresh(w) && w.wrapped && w.present
      && w.slot == Inner(g) && w.Repr == {w} + g.Repr
    ensures g.Resolvable() ==> w.Resolvable() && w.UnwrapVal() == g.UnwrapVal()
  {
    if g.Val().NilAny? {
      return g;
    }
    w := new Goption.Wrapping(g);
  }

  /** Unwrap: the pointer held by the first non-wrapped optional down the
      chain, or nil when that optional is absent. */
  function Unwrap<T>(g: Goption<T>): (r: Cell?<T>)
    requires g.ChainValid() && g.Resolvable()
    reads g.Repr
    ensures r != null <==> g.Bottom().present
    ensures r != null ==> g.Bottom().slot == Ptr(r)
  {
    g.UnwrapVal()
  }

  /** Any number of wrappers is transparent to `unwrapVal`: a wrapper `k`
      links above `g` resolves to the same pointer and the same bottom. */
  lemma {:induction false} UnwrapThroughWraps<T>(w: Goption<T>, g: Goption<T>, k: nat)
    requires w.ChainValid() && w.Resolvable() && w.WrapsOver(g, k)
    ensures g.Repr <= w.Repr && g.ChainValid() && g.Resolvable()
    ensures g.UnwrapVal() == w.UnwrapVal() && g.Bottom() == w.Bottom()
  {
    if k > 0 {
      UnwrapThroughWraps(w.slot.inner, g, k - 1);
    }
  }

  /** The bottom is the first non-wrapped optional on the chain: it lies
      `k` links down and every optional above it is a wrapper. */
  lemma {:induction false} BottomIsFirstUnwrapped<T>(w: Goption<T>) returns (k: nat)
    requires w.ChainValid() && w.Resolvable()
    ensures w.WrapsOver(w.Bottom(), k)
    ensures forall g, j: nat :: j < k && w.WrapsOver(g, j) ==> g.wrapped
    decreases w.Repr
  {
    if !w.wrapped {
      return 0;
    }
    var inner := w.slot.inner;
    var m := BottomIsFirstUnwrapped(inner);
    k := m + 1;
    forall g, j: nat | j < k && w.WrapsOver(g, j) ensures g.wrapped {
      if j > 0 {
        assert inner.WrapsOver(g, j - 1);
      }
    }
  }

  /** Serialization never shows the wrapper: a wrapper over `g` marshals
      exactly as `g` does whenever the chain resolves to a pointer. */
  lemma {:induction false} MarshalThroughWraps<T, E>(w: Goption<T>, g: Goption<T>, k: nat, encode: Option<T> -> Result<Bytes, E>)
    requires w.ChainValid() && w.Resolvable() && w.WrapsOver(g, k)
    requires w.UnwrapVal() != null
    ensures g.ChainValid() && g.Resolvable()
    ensures w.MarshalJSON(encode) == g.MarshalJSON(encode)
  {
    UnwrapThroughWraps(w, g, k);
  }

  /** The one place a wrapper shows in the output: over an optional whose
      chain resolves to nil, a wrapper marshals a nil pointer while the
      non-wrapped optional at the bottom yields no output at all. */
  lemma {:induction false} MarshalOverCleared<T, E>(w: Goption<T>, encode: Option<T> -> Result<Bytes, E>)
    requires w.ChainValid() && w.Resolvable() && w.wrapped
    requires w.UnwrapVal() == null
    ensures w.Bottom().MarshalJSON(encode) == Omitted
    ensures w.MarshalJSON(encode) == FromEncoder(encode(None)) != Omitted
  {
    var k := BottomIsFirstUnwrapped(w);
    UnwrapThroughWraps(w, w.Bottom(), k);
  }
}
