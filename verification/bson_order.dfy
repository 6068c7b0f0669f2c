/** MongoDB's comparison order for the values a report's `year` and `week`
    can hold (BSON type order: null, then numbers, then strings, then arrays,
    then booleans; within a type, by value), and the order `$sort` uses on
    the `(year, week)` group keys. */
module BsonOrder {
  import opened Json
  import opened Orders

  /** Position of a value's type in the BSON comparison order. */
  function ValueRank(v: Value): int {
    match v
    case Atom(Null) => 0
    case Atom(Int(_)) => 1
    case Atom(Str(_)) => 2
    case Array(_) => 3
    case Atom(Bool(_)) => 4
  }

  function ScalarLeq(x: Scalar, y: Scalar): bool {
    var vx, vy := Atom(x), Atom(y);
    if ValueRank(vx) != ValueRank(vy) then ValueRank(vx) < ValueRank(vy)
    else match (x, y)
      case (Int(a), Int(b)) => a <= b
      case (Str(a), Str(b)) => StrLeq(a, b)
      case (Bool(a), Bool(b)) => !a || b
      case _ => true
  }

  /** BSON comparison of two values. */
  function ValueLeq(v: Value, w: Value): bool {
    if ValueRank(v) != ValueRank(w) then ValueRank(v) < ValueRank(w)
    else match (v, w)
      case (Array(xs), Array(ys)) => LexLeq(xs, ys, ScalarLeq)
      case (Atom(x), Atom(y)) => ScalarLeq(x, y)
      case _ => true
  }

  /** `{"$sort": {"_id.year": 1, "_id.week": 1}}` on `(year, week)` keys. */
  function PeriodLeq(p: (Value, Value), q: (Value, Value)): bool {
    if p.0 != q.0 then ValueLeq(p.0, q.0) else ValueLeq(p.1, q.1)
  }

  lemma ScalarLeqTotalOrder()
    ensures TotalOrder(ScalarLeq)
  {
    StrLeqTotalOrder();
    forall x: Scalar, y: Scalar ensures ScalarLeq(x, y) || ScalarLeq(y, x) {
    }
    forall x: Scalar, y: Scalar | ScalarLeq(x, y) && ScalarLeq(y, x) ensures x == y {
    }
    forall x: Scalar, y: Scalar, z: Scalar | ScalarLeq(x, y) && ScalarLeq(y, z)
      ensures ScalarLeq(x, z)
    {
      if x.Str? && y.Str? && z.Str? {
        assert StrLeq(x.s, y.s) && StrLeq(y.s, z.s);
      }
    }
  }

  lemma ValueLeqTotalOrder()
    ensures TotalOrder(ValueLeq)
  {
    ScalarLeqTotalOrder();
    forall v: Value, w: Value ensures ValueLeq(v, w) || ValueLeq(w, v) {
      if v.Array? && w.Array? {
        LexTotal(v.items, w.items, ScalarLeq);
      }
    }
    forall v: Value, w: Value | ValueLeq(v, w) && ValueLeq(w, v) ensures v == w {
      if v.Array? && w.Array? {
        LexAntisymmetric(v.items, w.items, ScalarLeq);
      }
    }
    forall u: Value, v: Value, w: Value | ValueLeq(u, v) && ValueLeq(v, w)
      ensures ValueLeq(u, w)
    {
      if u.Array? && v.Array? && w.Array? {
        LexTransitive(u.items, v.items, w.items, ScalarLeq);
      }
    }
  }

  lemma PeriodLeqTotalOrder()
    ensures TotalOrder(PeriodLeq)
  {
    ValueLeqTotalOrder();
    forall p: (Value, Value), q: (Value, Value) | PeriodLeq(p, q) && PeriodLeq(q, p)
      ensures p == q
    {
    }
    forall p: (Value, Value), q: (Value, Value), r: (Value, Value) | PeriodLeq(p, q) && PeriodLeq(q, r)
      ensures PeriodLeq(p, r)
    {
    }
  }
}
