/**
  The generated message classes: each is parsed, written, measured and merged by separate code,
  and the lemmas say that the four agree.
  */
module Messages {
  import opened Bytes
  import opened Wire

  // A message beyond this size is refused by the writer.
  const MAX_MESSAGE: nat := TWO31 - 1

  // ---------------------------------------------------------------- parsing in general

  /** How one field changes a message; None when the field makes the message invalid. */
  type Setter<!M> = (M, Field) -> Option<M>

  function Fold<M>(m: M, fields: seq<Field>, set1: Setter<M>): Option<M>
  {
    if fields == [] then Some(m) else
    match set1(m, fields[0])
    case None => None
    case Some(next) => Fold(next, fields[1..], set1)
  }

  /** The field when its value is not the default one. */
  function When(present: bool, field: Field): seq<Field>
  {
    if present then [field] else []
  }

  /** Parses the body `b` into the message `m`, which need not be empty. */
  function Parse<M>(m: M, b: bytes, depth: nat, set1: Setter<M>): Option<M>
  {
    match ReadFields(b, depth)
    case None => None
    case Some(fields) => Fold(m, fields, set1)
  }

  lemma {:induction false} FoldConcat<M>(m: M, xs: seq<Field>, ys: seq<Field>, set1: Setter<M>)
    ensures Fold(m, xs + ys, set1) == match Fold(m, xs, set1)
                                      case None => None
                                      case Some(next) => Fold(next, ys, set1)
  {
    if xs == [] {
      assert xs + ys == ys;
    } else {
      assert (xs + ys)[1..] == xs[1..] + ys;
      if set1(m, xs[0]).Some? {
        FoldConcat(set1(m, xs[0]).value, xs[1..], ys, set1);
      }
    }
  }

  /**
    Any two bodies, unknown fields and repeated fields included: parsing their concatenation is
    parsing the second into the result of the first.
    */
  lemma ParseConcat<M>(m: M, x: bytes, y: bytes, depth: nat, set1: Setter<M>)
    requires Parse(m, x, depth, set1).Some?
    ensures Parse(m, x + y, depth, set1) == Parse(Parse(m, x, depth, set1).value, y, depth, set1)
  {
    FieldsConcat(x, y, depth);
    if ReadFields(y, depth).Some? {
      FoldConcat(m, ReadFields(x, depth).value, ReadFields(y, depth).value, set1);
    }
  }

  lemma FoldWhen<M>(m: M, present: bool, field: Field, rest: seq<Field>, set1: Setter<M>)
    ensures Fold(m, When(present, field) + rest, set1) ==
            if !present then Fold(m, rest, set1)
            else if set1(m, field).None? then None
            else Fold(set1(m, field).value, rest, set1)
  {
    assert present ==> ([field] + rest)[1..] == rest;
    assert [] + rest == rest;
  }

  lemma WriteWhen(present: bool, field: Field, rest: seq<Field>)
    requires present ==> Writable(field)
    requires forall f :: f in rest ==> Writable(f)
    ensures forall f :: f in When(present, field) + rest ==> Writable(f)
    ensures WriteFields(When(present, field) + rest) ==
            (if present then WriteField(field) else []) + WriteFields(rest)
  {
    assert present ==> ([field] + rest)[1..] == rest;
    assert [] + rest == rest;
  }

  lemma ParseEmpty<M>(m: M, depth: nat, set1: Setter<M>)
    ensures Parse(m, [], depth, set1) == Some(m)
  {
  }

  /** One round of a parse loop. */
  lemma ParseStep<M>(m: M, b: bytes, depth: nat, set1: Setter<M>)
    requires b != []
    ensures Parse(m, b, depth, set1) ==
            match ReadField(b, depth)
            case None => None
            case Some((field, n)) =>
              match set1(m, field)
              case None => None
              case Some(next) => Parse(next, b[n..], depth, set1)
  {
    hide ReadField;
    if ReadField(b, depth).Some? {
      var (field, n) := ReadField(b, depth).value;
      if ReadFields(b[n..], depth).Some? {
        var rest := ReadFields(b[n..], depth).value;
        assert ([field] + rest)[1..] == rest;
      }
    }
  }

  /** Parsing a written list of fields is setting them one by one. */
  lemma ParseWritten<M>(m: M, fields: seq<Field>, depth: nat, set1: Setter<M>)
    requires forall f :: f in fields ==> Writable(f)
    ensures Parse(m, WriteFields(fields), depth, set1) == Fold(m, fields, set1)
  {
    FieldsRoundTrip(fields, depth);
  }

  lemma FieldSize(number: nat, v: nat, data: bytes)
    requires 1 <= number < 16 && v < TWO64 && |data| < TWO64
    ensures |WriteVarintField(number, v)| == 1 + VarintSize(v)
    ensures |WriteLenField(number, data)| == 1 + VarintSize(|data|) + |data|
  {
    VarintLength(v);
    VarintLength(|data|);
  }

  // ---------------------------------------------------------------- last one wins

  /** The payload of the last length-delimited field of that number. */
  function LastLen(fields: seq<Field>, number: nat): Option<bytes>
  {
    if fields == [] then None else
    var last := fields[|fields| - 1];
    if last.number == number && last.payload.Len? then Some(last.payload.data)
    else LastLen(fields[..|fields| - 1], number)
  }

  /** The value of the last varint field of that number. */
  function LastVarint(fields: seq<Field>, number: nat): Option<nat>
  {
    if fields == [] then None else
    var last := fields[|fields| - 1];
    if last.number == number && last.payload.Varint? then Some(last.payload.v)
    else LastVarint(fields[..|fields| - 1], number)
  }

  function Else<T>(value: Option<T>, default: T): T
  {
    if value.Some? then value.value else default
  }

  /** A parse loop sets the last field last. */
  lemma FoldLast<M>(m: M, fields: seq<Field>, set1: Setter<M>)
    requires fields != []
    ensures Fold(m, fields, set1) == match Fold(m, fields[..|fields| - 1], set1)
                                     case None => None
                                     case Some(next) => set1(next, fields[|fields| - 1])
  {
    var init, last := fields[..|fields| - 1], fields[|fields| - 1];
    assert fields == init + [last];
    FoldConcat(m, init, [last], set1);
    if Fold(m, init, set1).Some? {
      var next := Fold(m, init, set1).value;
      assert [last][1..] == [];
    }
  }
}
