/**
 The edge predicates of a graph: a small safe subset of Python expressions, evaluated
 over named values. Parsing is not modelled; a condition is the syntax tree the parser
 yields. The `is` operator, which compares object identities, is left out of the tree,
 and so are attributes of values that are not dictionaries.
 */
module Conditions {
  import opened Values
  import opened Wrappers

  datatype Comparison = Eq | NotEq | Lt | LtE | Gt | GtE | In | NotIn

  datatype Expr =
    | Constant(value: Value)
    | Name(id: string)
    | Attribute(owner: Expr, attr: string)
    | Subscript(owner: Expr, index: Expr)
    | ListOf(items: seq<Expr>)
    | TupleOf(items: seq<Expr>)
    | SetOf(items: seq<Expr>)
    | And(operands: seq<Expr>)
    | Or(operands: seq<Expr>)
    | Not(operand: Expr)
    | Negate(operand: Expr)
    | Compare(left: Expr, ops: seq<Comparison>, comparators: seq<Expr>)
    | Unsupported

  /** A condition text: empty or `always`, text that does not parse, or an expression. */
  datatype Condition = Always | Malformed | When(body: Expr)

  datatype ConditionError = ConditionError

  type Outcome = Result<Value, ConditionError>

  type Context = map<string, Value>

  const FAILS: Outcome := Err(ConditionError)

  // ----- Python's value operations -----

  predicate Truthy(value: Value) {
    match value
    case Nil => false
    case Bool(b) => b
    case Int(n) => n != 0
    case Float(r) => r != 0.0
    case Str(s) => s != ""
    case List(items) => items != []
    case Tuple(items) => items != []
    case Set(items) => items != []
    case Dict(fields) => fields != map[]
  }

  /** Booleans, integers and floats compare as numbers. */
  function AsNumber(value: Value): Option<real> {
    match value
    case Bool(b) => Some(if b then 1.0 else 0.0)
    case Int(n) => Some(n as real)
    case Float(r) => Some(r)
    case _ => None
  }

  predicate SameValue(left: Value, right: Value)
    decreases left, 1
  {
    if AsNumber(left).Some? || AsNumber(right).Some? then
      AsNumber(left) == AsNumber(right)
    else
      match (left, right)
      case (Nil, Nil) => true
      case (Str(s), Str(t)) => s == t
      case (List(xs), List(ys)) => SameItems(xs, ys)
      case (Tuple(xs), Tuple(ys)) => SameItems(xs, ys)
      case (Set(xs), Set(ys)) =>
        && (forall x | x in xs :: exists y | y in ys :: SameValue(x, y))
        && (forall y | y in ys :: exists x | x in xs :: SameValue(x, y))
      case (Dict(fs), Dict(gs)) =>
        fs.Keys == gs.Keys && forall key | key in fs :: SameValue(fs[key], gs[key])
      case _ => false
  }

  predicate SameItems(xs: seq<Value>, ys: seq<Value>)
    decreases xs, 0
  {
    |xs| == |ys| && (xs == [] || (SameValue(xs[0], ys[0]) && SameItems(xs[1..], ys[1..])))
  }

  /** Some(left < right), or None where Python raises a type error. */
  function Less(left: Value, right: Value): Option<bool>
    decreases left, 1
  {
    if AsNumber(left).Some? && AsNumber(right).Some? then
      Some(AsNumber(left).value < AsNumber(right).value)
    else
      match (left, right)
      case (Str(s), Str(t)) => Some(TextBefore(s, t))
      case (List(xs), List(ys)) => LessItems(xs, ys)
      case (Tuple(xs), Tuple(ys)) => LessItems(xs, ys)
      case (Set(xs), Set(ys)) =>
        Some(&& (forall x | x in xs :: Member(x, ys)) && !(forall y | y in ys :: Member(y, xs)))
      case _ => None
  }

  function LessItems(xs: seq<Value>, ys: seq<Value>): Option<bool>
    decreases xs, 0
  {
    if ys == [] then Some(false)
    else if xs == [] then Some(true)
    else if SameValue(xs[0], ys[0]) then LessItems(xs[1..], ys[1..])
    else Less(xs[0], ys[0])
  }

  /** Strings compare by their first differing character. */
  predicate TextBefore(s: string, t: string) {
    t != "" && (s == "" || s[0] < t[0] || (s[0] == t[0] && TextBefore(s[1..], t[1..])))
  }

  predicate Member(x: Value, items: seq<Value>) {
    exists y | y in items :: SameValue(x, y)
  }

  predicate Within(s: string, t: string) {
    exists i | 0 <= i <= |t| :: s <= t[i..]
  }

  predicate Hashable(value: Value)
    decreases value
  {
    match value
    case List(_) => false
    case Set(_) => false
    case Dict(_) => false
    case Tuple(items) => forall item | item in items :: Hashable(item)
    case _ => true
  }

  /** Membership, or None where Python raises a type error. A set is looked up in a set as a frozen one. */
  function Contains(container: Value, x: Value): Option<bool> {
    match container
    case List(items) => Some(Member(x, items))
    case Tuple(items) => Some(Member(x, items))
    case Set(items) => if Hashable(x) || x.Set? then Some(Member(x, items)) else None
    case Dict(fields) =>
      if !Hashable(x) then None else Some(x.Str? && x.s in fields)
    case Str(t) => if x.Str? then Some(Within(x.s, t)) else None
    case _ => None
  }

  function Negated(answer: Option<bool>): Option<bool> {
    match answer
    case Some(b) => Some(!b)
    case None => None
  }

  function Either(answer: Option<bool>, other: bool): Option<bool> {
    match answer
    case Some(b) => Some(b || other)
    case None => None
  }

  function Compares(op: Comparison, left: Value, right: Value): Option<bool> {
    match op
    case Eq => Some(SameValue(left, right))
    case NotEq => Some(!SameValue(left, right))
    case Lt => Less(left, right)
    case LtE => Either(Less(left, right), SameValue(left, right))
    case Gt => Less(right, left)
    case GtE => Either(Less(right, left), SameValue(left, right))
    case In => Contains(right, left)
    case NotIn => Negated(Contains(right, left))
  }

  predicate Private(key: string) {
    "__" <= key
  }

  function ItemAt(items: seq<Value>, index: int): Value {
    if 0 <= index < |items| then items[index]
    else if -|items| <= index < 0 then items[|items| + index]
    else Nil
  }

  /** `_resolve`: missing keys, bad indices and private names all read as the null value. */
  function Resolve(value: Value, key: Value): Outcome {
    if key.Str? && Private(key.s) then Ok(Nil)
    else if value.Dict? then
      if !Hashable(key) then FAILS
      else Ok(if key.Str? then Get(value.fields, key.s) else Nil)
    else
      var index := if key.Int? then Some(key.n) else if key.Bool? then Some(if key.b then 1 else 0) else None;
      match (value, index)
      case (List(items), Some(i)) => Ok(ItemAt(items, i))
      case (Tuple(items), Some(i)) => Ok(ItemAt(items, i))
      case (Str(s), Some(i)) =>
        Ok(if 0 <= i < |s| then Str([s[i]]) else if -|s| <= i < 0 then Str([s[|s| + i]]) else Nil)
      case _ => Ok(Nil)
  }

  // ----- The evaluator -----

  function Evaluate(e: Expr, context: Context): Outcome
    decreases e, 1
  {
    match e
    case Constant(value) => Ok(value)
    case Name(id) => Ok(Get(context, id))
    case Attribute(owner, attr) =>
      (match Evaluate(owner, context)
       case Ok(value) => Resolve(value, Str(attr))
       case Err(error) => Err(error))
    case Subscript(owner, index) =>
      (match Evaluate(owner, context)
       case Err(error) => Err(error)
       case Ok(value) =>
         match Evaluate(index, context)
         case Ok(key) => Resolve(value, key)
         case Err(error) => Err(error))
    case ListOf(items) =>
      (match EvaluateAll(items, context)
       case Ok(values) => Ok(List(values))
       case Err(error) => Err(error))
    case TupleOf(items) =>
      (match EvaluateAll(items, context)
       case Ok(values) => Ok(Tuple(values))
       case Err(error) => Err(error))
    case SetOf(items) =>
      (match EvaluateAll(items, context)
       case Ok(values) => if forall v | v in values :: Hashable(v) then Ok(Set(values)) else FAILS
       case Err(error) => Err(error))
    case And(operands) => EvaluateUntil(operands, false, context)
    case Or(operands) => EvaluateUntil(operands, true, context)
    case Not(operand) =>
      (match Evaluate(operand, context)
       case Ok(value) => Ok(Bool(!Truthy(value)))
       case Err(error) => Err(error))
    case Negate(operand) =>
      (match Evaluate(operand, context)
       case Ok(Bool(b)) => Ok(Int(if b then -1 else 0))
       case Ok(Int(n)) => Ok(Int(-n))
       case Ok(Float(r)) => Ok(Float(-r))
       case Ok(_) => FAILS
       case Err(error) => Err(error))
    case Compare(left, ops, comparators) =>
      (match Evaluate(left, context)
       case Ok(value) => EvaluateChain(value, ops, comparators, context)
       case Err(error) => Err(error))
    case Unsupported => FAILS
  }

  function EvaluateAll(items: seq<Expr>, context: Context): Result<seq<Value>, ConditionError>
    decreases items, 0
  {
    if items == [] then Ok([])
    else
      match Evaluate(items[0], context)
      case Err(error) => Err(error)
      case Ok(value) =>
        match EvaluateAll(items[1..], context)
        case Ok(values) => Ok([value] + values)
        case Err(error) => Err(error)
  }

  /** `and` stops at the first false operand, `or` at the first true one. */
  function EvaluateUntil(operands: seq<Expr>, stop: bool, context: Context): Outcome
    decreases operands, 0
  {
    if operands == [] then Ok(Bool(!stop))
    else
      match Evaluate(operands[0], context)
      case Err(error) => Err(error)
      case Ok(value) =>
        if Truthy(value) == stop then Ok(Bool(stop))
        else EvaluateUntil(operands[1..], stop, context)
  }

  function EvaluateChain(left: Value, ops: seq<Comparison>, comparators: seq<Expr>, context: Context): Outcome
    decreases comparators, 0
  {
    if ops == [] && comparators == [] then Ok(Bool(true))
    else if ops == [] || comparators == [] then FAILS
    else
      match Evaluate(comparators[0], context)
      case Err(error) => Err(error)
      case Ok(right) =>
        match Compares(ops[0], left, right)
        case None => FAILS
        case Some(false) => Ok(Bool(false))
        case Some(true) => EvaluateChain(right, ops[1..], comparators[1..], context)
  }

  function EvaluateCondition(condition: Condition, context: Context): Result<bool, ConditionError> {
    match condition
    case Always => Ok(true)
    case Malformed => Err(ConditionError)
    case When(body) =>
      match Evaluate(body, context)
      case Ok(value) => Ok(Truthy(value))
      case Err(error) => Err(error)
  }

  /** The condition evaluates without error to a true value. */
  predicate Matches(condition: Condition, context: Context) {
    EvaluateCondition(condition, context) == Ok(true)
  }

  // ----- What an expression can depend on -----

  /**
   The expression mentions no name outside `names`, except that it may read attributes
   `data.key` with key in `keys`.
   */
  predicate ReadsOnly(e: Expr, names: set<string>, keys: set<string>)
    decreases e
  {
    match e
    case Constant(_) => true
    case Name(id) => id in names
    case Attribute(Name("data"), attr) => attr in keys
    case Attribute(owner, _) => ReadsOnly(owner, names, keys)
    case Subscript(owner, index) => ReadsOnly(owner, names, keys) && ReadsOnly(index, names, keys)
    case ListOf(items) => forall item | item in items :: ReadsOnly(item, names, keys)
    case TupleOf(items) => forall item | item in items :: ReadsOnly(item, names, keys)
    case SetOf(items) => forall item | item in items :: ReadsOnly(item, names, keys)
    case And(operands) => forall operand | operand in operands :: ReadsOnly(operand, names, keys)
    case Or(operands) => forall operand | operand in operands :: ReadsOnly(operand, names, keys)
    case Not(operand) => ReadsOnly(operand, names, keys)
    case Negate(operand) => ReadsOnly(operand, names, keys)
    case Compare(left, ops, comparators) =>
      ReadsOnly(left, names, keys) && forall item | item in comparators :: ReadsOnly(item, names, keys)
    case Unsupported => true
  }

  /** Two contexts look alike through `names` and through the keys `keys` of their data. */
  predicate LookAlike(c: Context, d: Context, names: set<string>, keys: set<string>) {
    && (forall name :: name in names ==> Get(c, name) == Get(d, name))
    && (forall key :: key in keys ==> Resolve(Get(c, "data"), Str(key)) == Resolve(Get(d, "data"), Str(key)))
  }

  /**
   An expression sees nothing of the state beyond what it names: contexts that look alike
   through its footprint evaluate alike, errors included.
   */
  lemma {:induction false} FootprintDecides(e: Expr, names: set<string>, keys: set<string>, c: Context, d: Context)
    requires ReadsOnly(e, names, keys) && LookAlike(c, d, names, keys)
    ensures Evaluate(e, c) == Evaluate(e, d)
    decreases e, 1
  {
    match e
    case Constant(_) =>
    case Name(_) =>
    case Attribute(owner, attr) =>
      if owner != Name("data") {
        FootprintDecides(owner, names, keys, c, d);
      } else {
        assert attr in keys;
      }
    case Subscript(owner, index) =>
      FootprintDecides(owner, names, keys, c, d);
      FootprintDecides(index, names, keys, c, d);
    case ListOf(items) => FootprintDecidesAll(items, names, keys, c, d);
    case TupleOf(items) => FootprintDecidesAll(items, names, keys, c, d);
    case SetOf(items) => FootprintDecidesAll(items, names, keys, c, d);
    case And(operands) => FootprintDecidesUntil(operands, false, names, keys, c, d);
    case Or(operands) => FootprintDecidesUntil(operands, true, names, keys, c, d);
    case Not(operand) => FootprintDecides(operand, names, keys, c, d);
    case Negate(operand) => FootprintDecides(operand, names, keys, c, d);
    case Compare(left, ops, comparators) =>
      FootprintDecides(left, names, keys, c, d);
      if Evaluate(left, c).Ok? {
        FootprintDecidesChain(Evaluate(left, c).value, ops, comparators, names, keys, c, d);
      }
    case Unsupported =>
  }

  lemma {:induction false} FootprintDecidesAll(items: seq<Expr>, names: set<string>, keys: set<string>,
                                               c: Context, d: Context)
    requires forall i :: 0 <= i < |items| ==> ReadsOnly(items[i], names, keys)
    requires LookAlike(c, d, names, keys)
    ensures EvaluateAll(items, c) == EvaluateAll(items, d)
    decreases items, 0
  {
    if items != [] {
      FootprintDecides(items[0], names, keys, c, d);
      FootprintDecidesAll(items[1..], names, keys, c, d);
    }
  }

  lemma {:induction false} FootprintDecidesUntil(operands: seq<Expr>, stop: bool, names: set<string>,
                                                 keys: set<string>, c: Context, d: Context)
    requires forall i :: 0 <= i < |operands| ==> ReadsOnly(operands[i], names, keys)
    requires LookAlike(c, d, names, keys)
    ensures EvaluateUntil(operands, stop, c) == EvaluateUntil(operands, stop, d)
    decreases operands, 0
  {
    if operands != [] {
      FootprintDecides(operands[0], names, keys, c, d);
      FootprintDecidesUntil(operands[1..], stop, names, keys, c, d);
    }
  }

  lemma {:induction false} FootprintDecidesChain(left: Value, ops: seq<Comparison>, comparators: seq<Expr>,
                                                 names: set<string>, keys: set<string>, c: Context, d: Context)
    requires forall i :: 0 <= i < |comparators| ==> ReadsOnly(comparators[i], names, keys)
    requires LookAlike(c, d, names, keys)
    ensures EvaluateChain(left, ops, comparators, c) == EvaluateChain(left, ops, comparators, d)
    decreases comparators, 0
  {
    if ops != [] && comparators != [] {
      FootprintDecides(comparators[0], names, keys, c, d);
      if Evaluate(comparators[0], c).Ok? {
        FootprintDecidesChain(Evaluate(comparators[0], c).value, ops[1..], comparators[1..], names, keys, c, d);
      }
    }
  }

  // ----- Chained comparisons -----

  /** The comparisons of a chain, each against the operand before it. */
  function Links(left: Expr, ops: seq<Comparison>, comparators: seq<Expr>): (links: seq<Expr>)
    requires |ops| == |comparators|
    ensures |links| == |ops|
    decreases |ops|
  {
    if ops == [] then []
    else [Compare(left, [ops[0]], [comparators[0]])] + Links(comparators[0], ops[1..], comparators[1..])
  }

  /** A single comparison: both operands are evaluated, left first. */
  lemma SingleComparison(left: Expr, op: Comparison, right: Expr, context: Context)
    ensures Evaluate(Compare(left, [op], [right]), context) ==
            match Evaluate(left, context)
            case Err(error) => Err(error)
            case Ok(l) =>
              match Evaluate(right, context)
              case Err(error) => Err(error)
              case Ok(r) =>
                match Compares(op, l, r)
                case None => FAILS
                case Some(b) => Ok(Bool(b))
  {
    if Evaluate(left, context).Ok? {
      assert EvaluateChain(Evaluate(left, context).value, [op], [right], context)
          == match Evaluate(right, context)
             case Err(error) => Err(error)
             case Ok(r) =>
               match Compares(op, Evaluate(left, context).value, r)
               case None => FAILS
               case Some(false) => Ok(Bool(false))
               case Some(true) => EvaluateChain(r, [op][1..], [right][1..], context);
    }
  }

  lemma {:induction false} ChainIsConjunction(left: Expr, ops: seq<Comparison>, comparators: seq<Expr>,
                                              context: Context)
    requires |ops| == |comparators|
    requires Evaluate(left, context).Ok?
    ensures EvaluateChain(Evaluate(left, context).value, ops, comparators, context)
         == EvaluateUntil(Links(left, ops, comparators), false, context)
    decreases |ops|
  {
    if ops != [] {
      SingleComparison(left, ops[0], comparators[0], context);
      assert Links(left, ops, comparators)[1..] == Links(comparators[0], ops[1..], comparators[1..]);
      if Evaluate(comparators[0], context).Ok? {
        ChainIsConjunction(comparators[0], ops[1..], comparators[1..], context);
      }
    }
  }

  /** A chain `a < b <= c` means `a < b and b <= c`, errors and early exits included. */
  lemma ComparisonIsConjunction(left: Expr, ops: seq<Comparison>, comparators: seq<Expr>, context: Context)
    requires |ops| == |comparators| && ops != []
    ensures Evaluate(Compare(left, ops, comparators), context)
         == Evaluate(And(Links(left, ops, comparators)), context)
  {
    SingleComparison(left, ops[0], comparators[0], context);
    if Evaluate(left, context).Ok? {
      ChainIsConjunction(left, ops, comparators, context);
    }
  }

  // ----- What the connectives and comparisons mean -----

  /**
   The operands up to and with this one were evaluated without error, and those before it did not end
   the evaluation.
   */
  predicate Reached(operands: seq<Expr>, stop: bool, context: Context, i: nat)
    requires i < |operands|
  {
    && Evaluate(operands[i], context).Ok?
    && forall j | 0 <= j < i ::
         Evaluate(operands[j], context).Ok? && Truthy(Evaluate(operands[j], context).value) != stop
  }

  /**
   `and` and `or` read from the left: they end at the first operand that decides, whatever comes
   after it; they fail at an error before one; and the result is a boolean.
   */
  lemma {:induction false} UntilMeans(operands: seq<Expr>, stop: bool, context: Context)
    ensures EvaluateUntil(operands, stop, context) == Ok(Bool(stop)) <==>
      exists i | 0 <= i < |operands| ::
        Reached(operands, stop, context, i) && Truthy(Evaluate(operands[i], context).value) == stop
    ensures EvaluateUntil(operands, stop, context) == Ok(Bool(!stop)) <==>
      forall i | 0 <= i < |operands| ::
        Evaluate(operands[i], context).Ok? && Truthy(Evaluate(operands[i], context).value) != stop
    ensures EvaluateUntil(operands, stop, context).Ok? ==> EvaluateUntil(operands, stop, context).value.Bool?
    decreases |operands|
  {
    if operands != [] {
      var rest := operands[1..];
      UntilMeans(rest, stop, context);
      if Evaluate(operands[0], context).Ok? && Truthy(Evaluate(operands[0], context).value) != stop {
        if i :| 0 <= i < |rest| && Reached(rest, stop, context, i)
                && Truthy(Evaluate(rest[i], context).value) == stop {
          ReachedLater(operands, stop, context, i + 1);
        }
        if i :| 0 <= i < |operands| && Reached(operands, stop, context, i)
                && Truthy(Evaluate(operands[i], context).value) == stop {
          ReachedLater(operands, stop, context, i);
        }
        assert forall i | 0 <= i < |rest| :: rest[i] == operands[i + 1];
      } else if Evaluate(operands[0], context).Ok? {
        assert Reached(operands, stop, context, 0);
      }
    }
  }

  lemma ReachedLater(operands: seq<Expr>, stop: bool, context: Context, i: nat)
    requires 0 < i < |operands| && Evaluate(operands[0], context).Ok?
    requires Truthy(Evaluate(operands[0], context).value) != stop
    ensures Reached(operands, stop, context, i) <==> Reached(operands[1..], stop, context, i - 1)
  {
    if Reached(operands[1..], stop, context, i - 1) {
      forall j | 0 <= j < i
        ensures Evaluate(operands[j], context).Ok? && Truthy(Evaluate(operands[j], context).value) != stop
      {
        assert j > 0 ==> operands[j] == operands[1..][j - 1];
      }
    }
  }

  /** `not` is the opposite of the operand's truth, and every comparison of numbers is that of the numbers. */
  lemma NotMeans(operand: Expr, context: Context)
    ensures Evaluate(Not(operand), context).Ok? <==> Evaluate(operand, context).Ok?
    ensures Evaluate(operand, context).Ok? ==>
              Truthy(Evaluate(Not(operand), context).value) == !Truthy(Evaluate(operand, context).value)
  {
  }

  lemma NumbersCompare(op: Comparison, left: Value, right: Value)
    requires AsNumber(left).Some? && AsNumber(right).Some? && op !in {In, NotIn}
    ensures var x, y := AsNumber(left).value, AsNumber(right).value;
            Compares(op, left, right) == Some(
              match op
              case Eq => x == y
              case NotEq => x != y
              case Lt => x < y
              case LtE => x <= y
              case Gt => x > y
              case GtE => x >= y
              case _ => false)
  {
  }

  /** `!=` and `not in` are the opposites of `==` and `in`, errors aside. */
  lemma OppositesCompare(left: Value, right: Value)
    ensures Compares(Eq, left, right).Some? && Compares(NotEq, left, right).Some?
    ensures Compares(NotEq, left, right).value == !Compares(Eq, left, right).value
    ensures Compares(NotIn, left, right).Some? <==> Compares(In, left, right).Some?
    ensures Compares(In, left, right).Some? ==>
              Compares(NotIn, left, right).value == !Compares(In, left, right).value
  {
  }

  /** A name that begins with two underscores reads as the null value wherever it is looked up. */
  lemma PrivateNamesAreHidden(owner: Expr, attr: string, context: Context)
    requires Private(attr) && Evaluate(owner, context).Ok?
    ensures Evaluate(Attribute(owner, attr), context) == Ok(Nil)
    ensures Evaluate(Subscript(owner, Constant(Str(attr))), context) == Ok(Nil)
  {
  }

  /** An index counts from the front or, when negative, from the back; one outside reads as the null value. */
  lemma IndexMeans(items: seq<Value>, i: int)
    ensures 0 <= i < |items| ==>
              && Resolve(List(items), Int(i)) == Ok(items[i]) == Resolve(List(items), Int(i - |items|))
              && Resolve(Tuple(items), Int(i)) == Ok(items[i]) == Resolve(Tuple(items), Int(i - |items|))
    ensures i >= |items| || i < -|items| ==> Resolve(List(items), Int(i)) == Ok(Nil) == Resolve(Tuple(items), Int(i))
  {
  }
}
