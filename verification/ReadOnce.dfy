// When a copy that has lost its operators still means the same: for searches that ask each thing
// once, exactly when no operator was turned over (core/apps/capture_node_api/lib/search/node.py).

module ReadOnce {
  import opened QueryTrees
  import opened Collapse
  import opened QueryAsWritten

  function Values(t: Tree): set<Value> {
    match t
    case Leaf(n, _) => {n.value}
    case Op(_, _, kids) => ValuesAll(kids)
  }

  function ValuesAll(ts: seq<Tree>): set<Value> {
    if ts == [] then {} else Values(ts[0]) + ValuesAll(ts[1..])
  }

  // No two atoms ask for the same thing, and every operator is an AND or an OR, as it is and as
  // it was made, of at least two subtrees.
  predicate AsksOnce(t: Tree) {
    t.Op? ==> t.kind in {AND, OR} && t.n.cls in {AND, OR} && |t.kids| >= 2 && AllAskOnce(t.kids)
  }

  predicate AllAskOnce(ts: seq<Tree>) {
    ts != [] ==> AsksOnce(ts[0]) && Values(ts[0]) !! ValuesAll(ts[1..]) && AllAskOnce(ts[1..])
  }

  // ---- What a meaning depends on ----

  predicate SameOn(values: set<Value>, e1: Env, e2: Env) { forall v <- values :: e1(v) == e2(v) }

  lemma {:induction false} DependsOnValues(t: Tree, e1: Env, e2: Env)
    requires SameOn(Values(t), e1, e2)
    ensures Eval(t, e1) == Eval(t, e2) && Eval(WrittenCopy(t), e1) == Eval(WrittenCopy(t), e2)
  {
    if t.Op? {
      DependOnValues(t.kids, e1, e2);
    }
  }

  lemma {:induction false} DependOnValues(ts: seq<Tree>, e1: Env, e2: Env)
    requires SameOn(ValuesAll(ts), e1, e2)
    ensures All(ts, e1) == All(ts, e2) && Any(ts, e1) == Any(ts, e2)
    ensures var rs := WrittenCopies(ts); All(rs, e1) == All(rs, e2) && Any(rs, e1) == Any(rs, e2)
  {
    if ts != [] {
      DependsOnValues(ts[0], e1, e2);
      DependOnValues(ts[1..], e1, e2);
    }
  }

  // Whatever the operators, a tree all of whose atoms come out alike comes out like them.
  predicate Gives(t: Tree, env: Env, b: bool) { Eval(t, env) == b && Eval(WrittenCopy(t), env) == b }

  predicate AllGive(ts: seq<Tree>, env: Env, b: bool) {
    ts != [] ==> Gives(ts[0], env, b) && AllGive(ts[1..], env, b)
  }

  lemma {:induction false} JoinedGive(ts: seq<Tree>, env: Env, b: bool)
    requires AllGive(ts, env, b) && ts != []
    ensures var rs := WrittenCopies(ts);
      All(ts, env) == Any(ts, env) == b && All(rs, env) == Any(rs, env) == b
  {
    if |ts| > 1 {
      JoinedGive(ts[1..], env, b);
    }
  }

  function Beside(values: set<Value>, e1: Env, e2: Env): Env { (v: Value) => if v in values then e1(v) else e2(v) }

  // The atoms can be made to come out all alike.
  lemma {:induction false} SomeGives(t: Tree, b: bool) returns (env: Env)
    requires AsksOnce(t)
    ensures Gives(t, env, b)
  {
    match t
    case Leaf(n, inv) => env := v => b != inv;
    case Op(_, _, kids) =>
      env := SomeGiveAll(kids, b);
      JoinedGive(kids, env, b);
  }

  lemma {:induction false} SomeGiveAll(ts: seq<Tree>, b: bool) returns (env: Env)
    requires AllAskOnce(ts)
    ensures AllGive(ts, env, b)
  {
    if ts == [] {
      env := v => true;
    } else {
      var first := SomeGives(ts[0], b);
      var rest := SomeGiveAll(ts[1..], b);
      env := Beside(Values(ts[0]), first, rest);
      DependsOnValues(ts[0], first, env);
      StillGive(ts[1..], rest, env, b);
    }
  }

  lemma {:induction false} StillGive(ts: seq<Tree>, e1: Env, e2: Env, b: bool)
    requires AllGive(ts, e1, b) && SameOn(ValuesAll(ts), e1, e2)
    ensures AllGive(ts, e2, b)
  {
    if ts != [] {
      DependsOnValues(ts[0], e1, e2);
      StillGive(ts[1..], e1, e2, b);
    }
  }

  // ---- Telling the copy from the original ----

  // The first subtree comes out true and the others false: an AND and an OR of them differ.
  lemma {:induction false} OperatorsDiffer(ts: seq<Tree>) returns (env: Env)
    requires AllAskOnce(ts) && |ts| >= 2
    ensures var rs := WrittenCopies(ts); !All(ts, env) && Any(ts, env) && !All(rs, env) && Any(rs, env)
  {
    var first := SomeGives(ts[0], true);
    var rest := SomeGiveAll(ts[1..], false);
    env := Beside(Values(ts[0]), first, rest);
    DependsOnValues(ts[0], first, env);
    StillGive(ts[1..], rest, env, false);
    JoinedGive(ts[1..], env, false);
  }

  lemma {:induction false} CopyDiffers(t: Tree) returns (env: Env)
    requires AsksOnce(t) && !AsMade(t)
    ensures Eval(t, env) != Eval(WrittenCopy(t), env)
  {
    if t.kind != t.n.cls {
      env := OperatorsDiffer(t.kids);
    } else {
      env := CopiesDiffer(t.kids, t.kind);
    }
  }

  lemma {:induction false} CopiesDiffer(ts: seq<Tree>, kind: Kind) returns (env: Env)
    requires AllAskOnce(ts) && !AllAsMade(ts) && kind in {AND, OR}
    ensures Joined(kind, ts, env) != Joined(kind, WrittenCopies(ts), env)
  {
    var rs := WrittenCopies(ts);
    assert rs[0] == WrittenCopy(ts[0]) && rs[1..] == WrittenCopies(ts[1..]);
    if AsMade(ts[0]) {
      var first := SomeGives(ts[0], kind == AND);
      var rest := CopiesDiffer(ts[1..], kind);
      env := Beside(Values(ts[0]), first, rest);
      DependsOnValues(ts[0], first, env);
      DependOnValues(ts[1..], rest, env);
      assert Joined(kind, ts, env) == Joined(kind, ts[1..], env);
      assert Joined(kind, rs, env) == Joined(kind, rs[1..], env);
    } else {
      var first := CopyDiffers(ts[0]);
      var rest := SomeGiveAll(ts[1..], kind == AND);
      env := Beside(Values(ts[0]), first, rest);
      DependsOnValues(ts[0], first, env);
      StillGive(ts[1..], rest, env, kind == AND);
      if |ts| > 1 {
        JoinedGive(ts[1..], env, kind == AND);
      } else {
        assert All(ts[1..], env) && !Any(ts[1..], env) && All(rs[1..], env) && !Any(rs[1..], env);
      }
    }
  }

  // The copy as written means what the original means exactly if no operator was turned over.
  lemma WrittenCopyMeansSameIff(t: Tree)
    requires AsksOnce(t)
    ensures SameMeaning(t, WrittenCopy(t)) <==> AsMade(t)
  {
    WrittenCopyIsAlike(t);
    if AsMade(t) {
      AlikeMeans(t, WrittenCopy(t));
    } else {
      var env := CopyDiffers(t);
    }
  }

  // ---- Distribution ----

  lemma {:induction false} OnceOfTwo(a: seq<Tree>, b: seq<Tree>)
    requires AllAskOnce(a + b)
    ensures AllAskOnce(a) && AllAskOnce(b) && ValuesAll(a) !! ValuesAll(b)
    ensures ValuesAll(a + b) == ValuesAll(a) + ValuesAll(b)
  {
    if a == [] {
      assert a + b == b;
    } else {
      assert (a + b)[1..] == a[1..] + b;
      OnceOfTwo(a[1..], b);
    }
  }

  // A copy of an AND that was made as an OR.
  lemma OrOfCopies(n: Node, rest: seq<Tree>, o: Tree, env: Env)
    requires n.cls == OR
    ensures Eval(Op(n, n.cls, WrittenCopies(rest) + [o]), env) == (Any(WrittenCopies(rest), env) || Eval(o, env))
  {
    MeaningOfTwo(WrittenCopies(rest), [o], env);
    MeaningOfOne(o, env);
  }

  lemma AndOfCopies(n: Node, rest: seq<Tree>, o: Tree, env: Env)
    requires n.cls == AND
    ensures Eval(Op(n, n.cls, WrittenCopies(rest) + [o]), env) == (All(WrittenCopies(rest), env) && Eval(o, env))
  {
    MeaningOfTwo(WrittenCopies(rest), [o], env);
    MeaningOfOne(o, env);
  }

  // With false alternatives nothing comes of an AND that was made as one.
  lemma {:induction false} NothingSpread(n: Node, rest: seq<Tree>, os: seq<Tree>, env: Env)
    requires n.cls == AND && AllGive(os, env, false)
    ensures !Any(WrittenSpread(n, rest, os), env)
  {
    if |os| == 1 {
      MeaningOfTwo(rest, os, env);
      MeaningOfOne(os[0], env);
      assert os == [os[0]];
      MeaningOfOne(Op(n, AND, rest + os), env);
    } else if |os| > 1 {
      NothingSpread(n, rest, os[1..], env);
      AndOfCopies(n, rest, os[0], env);
    }
  }

  // The AND beside the OR was made as an OR: a flow that meets the OR and no other part is found.
  lemma SpreadOfTurned(n: Node, rest: seq<Tree>, os: seq<Tree>) returns (env: Env)
    requires AllAskOnce(rest + os) && rest != [] && |os| >= 2 && n.cls == OR
    ensures Any(WrittenSpread(n, rest, os), env) != (All(rest, env) && Any(os, env))
  {
    OnceOfTwo(rest, os);
    var e1 := SomeGiveAll(rest, false);
    var e2 := SomeGiveAll(os, true);
    env := Beside(ValuesAll(rest), e1, e2);
    StillGive(rest, e1, env, false);
    StillGive(os, e2, env, true);
    JoinedGive(rest, env, false);
    OrOfCopies(n, rest, os[0], env);
  }

  // Some part that is copied has been turned over: with just the first alternative it tells.
  lemma SpreadOfCopies(n: Node, rest: seq<Tree>, os: seq<Tree>) returns (env: Env)
    requires AllAskOnce(rest + os) && |os| >= 2 && n.cls == AND && !AllAsMade(rest)
    ensures Any(WrittenSpread(n, rest, os), env) != (All(rest, env) && Any(os, env))
  {
    OnceOfTwo(rest, os);
    var e0 := CopiesDiffer(rest, AND);
    var e1 := SomeGives(os[0], true);
    var e2 := SomeGiveAll(os[1..], false);
    env := Beside(ValuesAll(rest), e0, Beside(Values(os[0]), e1, e2));
    DependOnValues(rest, e0, env);
    DependsOnValues(os[0], e1, env);
    StillGive(os[1..], e2, env, false);
    NothingSpread(n, rest, os[1..], env);
    AndOfCopies(n, rest, os[0], env);
  }

  // An AND with the subtrees `rest` is distributed over an OR of os with copy as it is written:
  // the meaning is kept exactly if there is nothing to copy for, or neither the AND nor any
  // operator below it has been turned over.
  lemma WrittenSpreadRightIff(n: Node, rest: seq<Tree>, os: seq<Tree>)
    requires AllAskOnce(rest + os) && rest != [] && os != [] && n.cls in {AND, OR}
    ensures (forall env: Env :: Any(WrittenSpread(n, rest, os), env) == (All(rest, env) && Any(os, env))) <==>
            |os| == 1 || AsMade(Op(n, AND, rest))
  {
    if |os| == 1 || AsMade(Op(n, AND, rest)) {
      forall env: Env ensures Any(WrittenSpread(n, rest, os), env) == (All(rest, env) && Any(os, env)) {
        WrittenSpreadRight(n, rest, os, env);
      }
    } else if n.cls == OR {
      var env := SpreadOfTurned(n, rest, os);
    } else {
      var env := SpreadOfCopies(n, rest, os);
    }
  }
}
