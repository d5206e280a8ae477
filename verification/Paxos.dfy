/**
 * Single-decree Paxos: the acceptor rules, the two proposer phases and the
 * synchronous instance, with agreement over every interleaving of attempts.
 */
module Paxos {
  import Quorum

  datatype Acceptor = Acceptor(promised: nat, acceptedNum: nat, acceptedValue: int, hasAccepted: bool)

  datatype Learner = Learner(value: int, round: nat, hasLearned: bool)

  // One use of a proposal number: who promised it, what the promises reported
  // and who accepted it.
  datatype Attempt = Attempt(num: nat, ownValue: int, promisedBy: set<nat>, highestNum: nat, highestValue: int,
                             closed: bool, acceptedBy: set<nat>)
  {
    // The value an attempt asks acceptors to accept.
    function Value(): int { if highestNum > 0 then highestValue else ownValue }
  }

  datatype World = World(acceptors: seq<Acceptor>, attempts: seq<Attempt>)

  // A message reaching an acceptor, or a proposer picking a number.
  datatype Step =
    | Start(num: nat, value: int)
    | Prepare(t: nat, i: nat)
    | Accept(t: nat, i: nat)

  const BLANK := Acceptor(0, 0, 0, false)

  function Init(n: nat): World { World(seq(n, _ => BLANK), []) }

  predicate Promises(a: Acceptor, num: nat) { num > a.promised }

  predicate Accepts(a: Acceptor, num: nat) { num >= a.promised }

  function PromiseStep(a: Acceptor, num: nat): Acceptor {
    if Promises(a, num) then a.(promised := num) else a
  }

  function AcceptStep(a: Acceptor, num: nat, value: int): Acceptor {
    if Accepts(a, num) then Acceptor(a.promised, num, value, true) else a
  }

  // Prepare is over once the first Accept is sent; Accept needs a quorum of
  // promises and is sent only to acceptors that promised to this attempt.
  predicate Enabled(w: World, s: Step) {
    Reaches(w, s) && (s.Accept? ==> s.i in w.attempts[s.t].promisedBy)
  }

  // As Enabled, with Accept free to reach any acceptor.
  predicate Reaches(w: World, s: Step) {
    match s
    case Start(_, _) => true
    case Prepare(t, i) => t < |w.attempts| && i < |w.acceptors| && !w.attempts[t].closed
    case Accept(t, i) =>
      t < |w.attempts| && i < |w.acceptors| && |w.attempts[t].promisedBy| >= Quorum.Size(|w.acceptors|)
  }

  function Next(w: World, s: Step): World
    requires Reaches(w, s)
  {
    match s
    case Start(num, value) => w.(attempts := w.attempts + [Attempt(num, value, {}, 0, 0, false, {})])
    case Prepare(t, i) =>
      var a, p := w.acceptors[i], w.attempts[t];
      if !Promises(a, p.num) then w else
      var p := p.(promisedBy := p.promisedBy + {i});
      var p := if a.hasAccepted && a.acceptedNum > p.highestNum
               then p.(highestNum := a.acceptedNum, highestValue := a.acceptedValue) else p;
      World(w.acceptors[i := PromiseStep(a, p.num)], w.attempts[t := p])
    case Accept(t, i) =>
      var a, p := w.acceptors[i], w.attempts[t];
      var p := p.(closed := true, acceptedBy := if Accepts(a, p.num) then p.acceptedBy + {i} else p.acceptedBy);
      World(w.acceptors[i := AcceptStep(a, p.num, p.Value())], w.attempts[t := p])
  }

  // A step that is not enabled has no effect.
  function Apply(w: World, s: Step): World {
    if Enabled(w, s) then Next(w, s) else w
  }

  function Exec(w: World, steps: seq<Step>): World {
    if steps == [] then w else Apply(Exec(w, steps[..|steps| - 1]), steps[|steps| - 1])
  }

  ghost predicate Chosen(w: World, t: nat) {
    t < |w.attempts| && |w.attempts[t].acceptedBy| >= Quorum.Size(|w.acceptors|)
  }

  ghost predicate ChosenValue(w: World, v: int) {
    exists t: nat :: Chosen(w, t) && w.attempts[t].Value() == v
  }

  // ---------- The inductive invariant ----------

  ghost predicate AttemptOk(w: World, t: nat)
    requires t < |w.attempts|
  {
    var p := w.attempts[t];
    && Quorum.Members(|w.acceptors|, p.promisedBy)
    && p.acceptedBy <= p.promisedBy
    && (forall i <- p.promisedBy :: 0 < p.num <= w.acceptors[i].promised)
    && (p.acceptedBy != {} ==> p.closed && |p.promisedBy| >= Quorum.Size(|w.acceptors|))
  }

  // An acceptor promises one number to one attempt only.
  ghost predicate DistinctPromises(w: World) {
    forall s, t, i :: 0 <= s < t < |w.attempts| && i in w.attempts[s].promisedBy && i in w.attempts[t].promisedBy
                      ==> w.attempts[s].num != w.attempts[t].num
  }

  // What an acceptor stores is its highest accepted proposal.
  ghost predicate AcceptorOk(w: World, i: nat)
    requires i < |w.acceptors|
  {
    var a := w.acceptors[i];
    && (a.hasAccepted ==> 0 < a.acceptedNum <= a.promised && exists t :: AcceptedAs(w, i, t))
    && (forall t :: 0 <= t < |w.attempts| && i in w.attempts[t].acceptedBy
                    ==> a.hasAccepted && w.attempts[t].num <= a.acceptedNum)
  }

  ghost predicate AcceptedAs(w: World, i: nat, t: nat)
    requires i < |w.acceptors|
  {
    && t < |w.attempts|
    && i in w.attempts[t].acceptedBy
    && w.attempts[t].num == w.acceptors[i].acceptedNum
    && w.attempts[t].Value() == w.acceptors[i].acceptedValue
  }

  // The promises collected by attempt b report the highest proposal below its
  // number that the promising acceptors ever accept.
  ghost predicate Covers(w: World, b: nat)
    requires b < |w.attempts|
  {
    var q := w.attempts[b];
    && (forall a, i :: 0 <= a < |w.attempts| && i in q.promisedBy && i in w.attempts[a].acceptedBy ==>
                         w.attempts[a].num <= q.highestNum || q.num <= w.attempts[a].num)
    && (q.highestNum > 0 ==> q.highestNum < q.num && exists c :: Reported(w, q, c))
  }

  ghost predicate Reported(w: World, q: Attempt, c: nat) {
    && c < |w.attempts|
    && w.attempts[c].acceptedBy != {}
    && w.attempts[c].num == q.highestNum
    && w.attempts[c].Value() == q.highestValue
  }

  ghost predicate Inv(w: World) {
    && (forall t :: 0 <= t < |w.attempts| ==> AttemptOk(w, t) && Covers(w, t))
    && (forall i :: 0 <= i < |w.acceptors| ==> AcceptorOk(w, i))
    && DistinctPromises(w)
  }

  // A promise that is granted, split by conjunct of the invariant.
  ghost predicate Grants(w: World, t: nat, i: nat) {
    Enabled(w, Prepare(t, i)) && Promises(w.acceptors[i], w.attempts[t].num)
  }

  lemma {:induction false} PromiseKeepsAcceptor(w: World, t: nat, i: nat, j: nat)
    requires Inv(w) && Grants(w, t, i) && j < |w.acceptors|
    ensures AcceptorOk(Next(w, Prepare(t, i)), j)
  {
    var w' := Next(w, Prepare(t, i));
    assert AcceptorOk(w, j);
    if w.acceptors[j].hasAccepted {
      var s :| AcceptedAs(w, j, s);
      assert AttemptOk(w, s);
      assert AcceptedAs(w', j, s);
    }
  }

  lemma {:induction false} PromiseKeepsAttempt(w: World, t: nat, i: nat, s: nat)
    requires Inv(w) && Grants(w, t, i) && s < |w.attempts|
    ensures AttemptOk(Next(w, Prepare(t, i)), s)
  {
    assert AttemptOk(w, s);
    if s == t {
      var p, p' := w.attempts[t].promisedBy, w.attempts[t].promisedBy + {i};
      assert |p'| == |p| + |p' - p|;
    }
  }

  lemma {:induction false} PromiseKeepsDistinct(w: World, t: nat, i: nat)
    requires Inv(w) && Grants(w, t, i)
    ensures DistinctPromises(Next(w, Prepare(t, i)))
  {
    forall s | 0 <= s < |w.attempts| && i in w.attempts[s].promisedBy
      ensures w.attempts[s].num < w.attempts[t].num
    {
      assert AttemptOk(w, s);
    }
  }

  lemma {:induction false} PromiseKeepsCover(w: World, t: nat, i: nat, b: nat)
    requires Inv(w) && Grants(w, t, i) && b < |w.attempts|
    ensures Covers(Next(w, Prepare(t, i)), b)
  {
    var w' := Next(w, Prepare(t, i));
    assert Covers(w, b) && AcceptorOk(w, i);
    if w'.attempts[b].highestNum > 0 {
      if w.attempts[b].highestNum == w'.attempts[b].highestNum {
        var c :| Reported(w, w.attempts[b], c);
        assert AttemptOk(w, c);
        assert Reported(w', w'.attempts[b], c);
      } else {
        var c :| AcceptedAs(w, i, c);
        assert AttemptOk(w, c);
        assert Reported(w', w'.attempts[b], c);
      }
    }
  }

  lemma {:induction false} PrepareKeepsInv(w: World, t: nat, i: nat)
    requires Inv(w) && Enabled(w, Prepare(t, i))
    ensures Inv(Next(w, Prepare(t, i)))
  {
    if Grants(w, t, i) {
      var w' := Next(w, Prepare(t, i));
      forall j | 0 <= j < |w'.acceptors| ensures AcceptorOk(w', j) {
        PromiseKeepsAcceptor(w, t, i, j);
      }
      forall b | 0 <= b < |w'.attempts| ensures AttemptOk(w', b) && Covers(w', b) {
        PromiseKeepsAttempt(w, t, i, b);
        PromiseKeepsCover(w, t, i, b);
      }
      PromiseKeepsDistinct(w, t, i);
    }
  }

  lemma {:induction false} AcceptKeepsAcceptor(w: World, t: nat, i: nat, w': World, j: nat)
    requires Inv(w) && Enabled(w, Accept(t, i)) && w' == Next(w, Accept(t, i)) && j < |w.acceptors|
    ensures AcceptorOk(w', j)
  {
    assert AcceptorOk(w, j) && AttemptOk(w, t);
    if j == i && Accepts(w.acceptors[i], w.attempts[t].num) {
      assert AcceptedAs(w', i, t);
    } else if w.acceptors[j].hasAccepted {
      var s :| AcceptedAs(w, j, s);
      assert AcceptedAs(w', j, s);
    }
  }

  lemma {:induction false} AcceptKeepsCover(w: World, t: nat, i: nat, w': World, b: nat)
    requires Inv(w) && Enabled(w, Accept(t, i)) && w' == Next(w, Accept(t, i)) && b < |w.attempts|
    ensures Covers(w', b) && AttemptOk(w', b)
  {
    assert Covers(w, b) && AttemptOk(w, b) && AttemptOk(w, t);
    if w.attempts[b].highestNum > 0 {
      var c :| Reported(w, w.attempts[b], c);
      assert Reported(w', w'.attempts[b], c);
    }
  }

  lemma {:induction false} AcceptKeepsInv(w: World, t: nat, i: nat)
    requires Inv(w) && Enabled(w, Accept(t, i))
    ensures Inv(Next(w, Accept(t, i)))
  {
    var w' := Next(w, Accept(t, i));
    forall j | 0 <= j < |w'.acceptors| ensures AcceptorOk(w', j) {
      AcceptKeepsAcceptor(w, t, i, w', j);
    }
    forall b | 0 <= b < |w'.attempts| ensures Covers(w', b) && AttemptOk(w', b) {
      AcceptKeepsCover(w, t, i, w', b);
    }
  }

  lemma {:induction false} StartKeepsInv(w: World, num: nat, value: int)
    requires Inv(w)
    ensures Inv(Next(w, Start(num, value)))
  {
    var w' := Next(w, Start(num, value));
    forall j | 0 <= j < |w.acceptors| ensures AcceptorOk(w', j) {
      assert AcceptorOk(w, j);
      if w.acceptors[j].hasAccepted {
        var s :| AcceptedAs(w, j, s);
        assert AcceptedAs(w', j, s);
      }
    }
    forall b | 0 <= b < |w.attempts| ensures Covers(w', b) && AttemptOk(w', b) {
      assert Covers(w, b) && AttemptOk(w, b);
      if w.attempts[b].highestNum > 0 {
        var c :| Reported(w, w.attempts[b], c);
        assert Reported(w', w'.attempts[b], c);
      }
    }
  }

  lemma {:induction false} ApplyKeepsInv(w: World, s: Step)
    requires Inv(w)
    ensures Inv(Apply(w, s))
  {
    if Enabled(w, s) {
      match s
      case Start(num, value) => StartKeepsInv(w, num, value);
      case Prepare(t, i) => PrepareKeepsInv(w, t, i);
      case Accept(t, i) => AcceptKeepsInv(w, t, i);
    }
  }

  lemma {:induction false} ExecKeepsInv(w: World, steps: seq<Step>)
    requires Inv(w)
    ensures Inv(Exec(w, steps))
  {
    if steps != [] {
      ExecKeepsInv(w, steps[..|steps| - 1]);
      ApplyKeepsInv(Exec(w, steps[..|steps| - 1]), steps[|steps| - 1]);
    }
  }

  // ---------- Agreement ----------

  // Every attempt with a quorum of promises at or above a chosen number
  // proposes the chosen value.
  lemma {:induction false} ChosenBinds(w: World, a: nat, b: nat)
    requires Inv(w) && Chosen(w, a) && b < |w.attempts|
    requires |w.attempts[b].promisedBy| >= Quorum.Size(|w.acceptors|)
    requires w.attempts[a].num <= w.attempts[b].num
    ensures w.attempts[a].Value() == w.attempts[b].Value()
    decreases w.attempts[b].num
  {
    var p, q := w.attempts[a], w.attempts[b];
    assert AttemptOk(w, a) && AttemptOk(w, b) && Covers(w, b);
    Quorum.Intersection(|w.acceptors|, p.acceptedBy, q.promisedBy);
    if a != b {
      var c :| Reported(w, q, c);
      assert AttemptOk(w, c);
      ChosenBinds(w, a, c);
    }
  }

  lemma {:induction false} ChosenAgree(w: World, a: nat, b: nat)
    requires Inv(w) && Chosen(w, a) && Chosen(w, b)
    ensures w.attempts[a].Value() == w.attempts[b].Value()
  {
    assert AttemptOk(w, a) && AttemptOk(w, b);
    if w.attempts[a].num <= w.attempts[b].num {
      ChosenBinds(w, a, b);
    } else {
      ChosenBinds(w, b, a);
    }
  }

  // A chosen value stays chosen.
  lemma {:induction false} ApplyKeepsChosen(w: World, s: Step, t: nat)
    requires Inv(w) && Chosen(w, t)
    ensures Chosen(Apply(w, s), t) && Apply(w, s).attempts[t].Value() == w.attempts[t].Value()
  {
    assert AttemptOk(w, t);
    var p, p' := w.attempts[t].acceptedBy, Apply(w, s).attempts[t].acceptedBy;
    assert p <= p' && |p'| == |p| + |p' - p|;
  }

  lemma {:induction false} ExecKeepsChosen(w: World, steps: seq<Step>, t: nat)
    requires Inv(w) && Chosen(w, t)
    ensures Chosen(Exec(w, steps), t) && Exec(w, steps).attempts[t].Value() == w.attempts[t].Value()
  {
    if steps != [] {
      ExecKeepsChosen(w, steps[..|steps| - 1], t);
      ExecKeepsInv(w, steps[..|steps| - 1]);
      ApplyKeepsChosen(Exec(w, steps[..|steps| - 1]), steps[|steps| - 1], t);
    }
  }

  lemma {:induction false} ExecSplit(w: World, xs: seq<Step>, ys: seq<Step>)
    ensures Exec(w, xs + ys) == Exec(Exec(w, xs), ys)
  {
    if ys == [] {
      assert xs + ys == xs;
    } else {
      ExecSplit(w, xs, ys[..|ys| - 1]);
      assert (xs + ys)[..|xs + ys| - 1] == xs + ys[..|ys| - 1];
    }
  }

  // Agreement over every run of every cluster: a value accepted by a majority
  // at any moment is the value accepted by any majority at any later moment.
  lemma {:induction false} Agreement(n: nat, xs: seq<Step>, ys: seq<Step>, u: int, v: int)
    requires ChosenValue(Exec(Init(n), xs), u)
    requires ChosenValue(Exec(Init(n), xs + ys), v)
    ensures u == v
  {
    var w, w' := Exec(Init(n), xs), Exec(Init(n), xs + ys);
    ExecKeepsInv(Init(n), xs);
    ExecKeepsInv(Init(n), xs + ys);
    ExecSplit(Init(n), xs, ys);
    var a: nat :| Chosen(w, a) && w.attempts[a].Value() == u;
    var b: nat :| Chosen(w', b) && w'.attempts[b].Value() == v;
    ExecKeepsChosen(w, ys, a);
    ChosenAgree(w', a, b);
  }

  // ---------- Why Accept goes only to acceptors that promised ----------

  function FreeExec(w: World, steps: seq<Step>): World {
    if steps == [] then w else
    var w' := FreeExec(w, steps[..|steps| - 1]);
    if Reaches(w', steps[|steps| - 1]) then Next(w', steps[|steps| - 1]) else w'
  }

  lemma {:induction false} Extend(xs: seq<Step>, w: World, s: Step, w': World) returns (ys: seq<Step>)
    requires FreeExec(Init(3), xs) == w && Reaches(w, s) && w' == Next(w, s)
    ensures ys == xs + [s] && FreeExec(Init(3), ys) == w'
  {
    ys := xs + [s];
    assert ys[..|ys| - 1] == xs;
  }

  // Accepting does not raise the promise, so an Accept delivered to an acceptor
  // that never promised (here proposal 5 reaching acceptor 2) can be overwritten
  // by a lower proposal, and a second value is chosen.
  lemma {:induction false} UnpromisedAcceptBreaksAgreement() returns (xs: seq<Step>, ys: seq<Step>)
    ensures xs <= ys
    ensures ChosenValue(FreeExec(Init(3), xs), 7) && ChosenValue(FreeExec(Init(3), ys), 9)
  {
    var c, a := Attempt(3, 9, {1, 2}, 0, 0, false, {}), Attempt(5, 7, {0, 1}, 0, 0, false, {});
    xs := PrepareThree(c);
    xs := PrepareFive(xs, c, a);
    xs := ChooseSeven(xs, c, a);
    ys := ChooseNine(xs, c, a.(closed := true, acceptedBy := {0, 2}));
  }

  lemma {:induction false} PrepareThree(c: Attempt) returns (xs: seq<Step>)
    requires c == Attempt(3, 9, {1, 2}, 0, 0, false, {})
    ensures FreeExec(Init(3), xs) == World([BLANK, Acceptor(3, 0, 0, false), Acceptor(3, 0, 0, false)], [c])
  {
    var p3 := Acceptor(3, 0, 0, false);
    var w0 := World([BLANK, BLANK, BLANK], [c.(promisedBy := {})]);
    var w1 := World([BLANK, p3, BLANK], [c.(promisedBy := {1})]);
    var w2 := World([BLANK, p3, p3], [c]);
    StartThree(c, w0);
    xs := Extend([], Init(3), Start(3, 9), w0);
    FirstThree(c, w0, w1);
    xs := Extend(xs, w0, Prepare(0, 1), w1);
    SecondThree(c, w1, w2);
    xs := Extend(xs, w1, Prepare(0, 2), w2);
  }

  lemma {:induction false} StartThree(c: Attempt, w0: World)
    requires c == Attempt(3, 9, {1, 2}, 0, 0, false, {})
    requires w0 == World([BLANK, BLANK, BLANK], [c.(promisedBy := {})])
    ensures Next(Init(3), Start(3, 9)) == w0
  {
    assert Init(3) == World([BLANK, BLANK, BLANK], []);
  }

  lemma {:induction false} FirstThree(c: Attempt, w0: World, w1: World)
    requires c == Attempt(3, 9, {1, 2}, 0, 0, false, {})
    requires w0 == World([BLANK, BLANK, BLANK], [c.(promisedBy := {})])
    requires w1 == World([BLANK, Acceptor(3, 0, 0, false), BLANK], [c.(promisedBy := {1})])
    ensures Next(w0, Prepare(0, 1)) == w1
  {
    assert {} + {1} == w1.attempts[0].promisedBy;
  }

  lemma {:induction false} SecondThree(c: Attempt, w1: World, w2: World)
    requires c == Attempt(3, 9, {1, 2}, 0, 0, false, {})
    requires w1 == World([BLANK, Acceptor(3, 0, 0, false), BLANK], [c.(promisedBy := {1})])
    requires w2 == World([BLANK, Acceptor(3, 0, 0, false), Acceptor(3, 0, 0, false)], [c])
    ensures Next(w1, Prepare(0, 2)) == w2
  {
    assert {1} + {2} == c.promisedBy;
  }

  lemma {:induction false} PrepareFive(xs: seq<Step>, c: Attempt, a: Attempt) returns (ys: seq<Step>)
    requires a == Attempt(5, 7, {0, 1}, 0, 0, false, {})
    requires FreeExec(Init(3), xs) == World([BLANK, Acceptor(3, 0, 0, false), Acceptor(3, 0, 0, false)], [c])
    ensures FreeExec(Init(3), ys)
            == World([Acceptor(5, 0, 0, false), Acceptor(5, 0, 0, false), Acceptor(3, 0, 0, false)], [c, a])
  {
    var p3, p5 := Acceptor(3, 0, 0, false), Acceptor(5, 0, 0, false);
    var w0 := World([BLANK, p3, p3], [c]);
    var w1 := World([BLANK, p3, p3], [c, a.(promisedBy := {})]);
    var w2 := World([p5, p3, p3], [c, a.(promisedBy := {0})]);
    var w3 := World([p5, p5, p3], [c, a]);
    ys := Extend(xs, w0, Start(5, 7), w1);
    assert Next(w1, Prepare(1, 0)) == w2 by { assert {} + {0} == w2.attempts[1].promisedBy; }
    ys := Extend(ys, w1, Prepare(1, 0), w2);
    assert Next(w2, Prepare(1, 1)) == w3 by { assert {0} + {1} == a.promisedBy; }
    ys := Extend(ys, w2, Prepare(1, 1), w3);
  }

  lemma {:induction false} ChooseSeven(xs: seq<Step>, c: Attempt, a: Attempt) returns (ys: seq<Step>)
    requires a == Attempt(5, 7, {0, 1}, 0, 0, false, {})
    requires FreeExec(Init(3), xs)
             == World([Acceptor(5, 0, 0, false), Acceptor(5, 0, 0, false), Acceptor(3, 0, 0, false)], [c, a])
    ensures xs <= ys && ChosenValue(FreeExec(Init(3), ys), 7)
    ensures FreeExec(Init(3), ys)
            == World([Acceptor(5, 5, 7, true), Acceptor(5, 0, 0, false), Acceptor(3, 5, 7, true)],
                     [c, a.(closed := true, acceptedBy := {0, 2})])
  {
    var x, p5 := Acceptor(5, 5, 7, true), Acceptor(5, 0, 0, false);
    var w1 := World([x, p5, Acceptor(3, 0, 0, false)], [c, a.(closed := true, acceptedBy := {0})]);
    var w2 := World([x, p5, Acceptor(3, 5, 7, true)], [c, a.(closed := true, acceptedBy := {0, 2})]);
    assert |a.promisedBy| == 2;
    assert w1.attempts[1].acceptedBy == a.acceptedBy + {0};
    ys := Extend(xs, FreeExec(Init(3), xs), Accept(1, 0), w1);
    assert w2.attempts[1].acceptedBy == w1.attempts[1].acceptedBy + {2};
    ys := Extend(ys, w1, Accept(1, 2), w2);
    assert |w2.attempts[1].acceptedBy| == 2;
    assert Chosen(w2, 1) && w2.attempts[1].Value() == 7;
  }

  lemma {:induction false} ChooseNine(xs: seq<Step>, c: Attempt, a: Attempt) returns (ys: seq<Step>)
    requires c == Attempt(3, 9, {1, 2}, 0, 0, false, {})
    requires FreeExec(Init(3), xs)
             == World([Acceptor(5, 5, 7, true), Acceptor(5, 0, 0, false), Acceptor(3, 5, 7, true)], [c, a])
    ensures xs <= ys && ChosenValue(FreeExec(Init(3), ys), 9)
  {
    var x, p5, y := Acceptor(5, 5, 7, true), Acceptor(5, 0, 0, false), Acceptor(3, 3, 9, true);
    var c' := c.(closed := true, acceptedBy := {2});
    var w1 := World([x, p5, y], [c', a]);
    assert |c.promisedBy| == 2 && c'.acceptedBy == c.acceptedBy + {2};
    ys := Extend(xs, FreeExec(Init(3), xs), Accept(0, 2), w1);
    ys := PrepareSix(ys, x, c', a);
    ys := AcceptNine(ys, x, c', a);
  }

  lemma {:induction false} PrepareSix(xs: seq<Step>, x: Acceptor, c: Attempt, a: Attempt) returns (ys: seq<Step>)
    requires FreeExec(Init(3), xs) == World([x, Acceptor(5, 0, 0, false), Acceptor(3, 3, 9, true)], [c, a])
    ensures xs <= ys && FreeExec(Init(3), ys) == World([x, Acceptor(6, 0, 0, false), Acceptor(3, 3, 9, true)],
                                                       [c, a, Attempt(6, 0, {1}, 0, 0, false, {})])
  {
    var p5, p6, y := Acceptor(5, 0, 0, false), Acceptor(6, 0, 0, false), Acceptor(3, 3, 9, true);
    var w1 := World([x, p5, y], [c, a]);
    var w2 := World([x, p5, y], [c, a, Attempt(6, 0, {}, 0, 0, false, {})]);
    var w3 := World([x, p6, y], [c, a, Attempt(6, 0, {1}, 0, 0, false, {})]);
    ys := Extend(xs, w1, Start(6, 0), w2);
    assert Next(w2, Prepare(2, 1)) == w3 by { assert {} + {1} == w3.attempts[2].promisedBy; }
    ys := Extend(ys, w2, Prepare(2, 1), w3);
  }

  lemma {:induction false} AcceptNine(xs: seq<Step>, x: Acceptor, c: Attempt, a: Attempt) returns (ys: seq<Step>)
    requires FreeExec(Init(3), xs) == World([x, Acceptor(6, 0, 0, false), Acceptor(3, 3, 9, true)],
                                            [c, a, Attempt(6, 0, {1}, 0, 0, false, {})])
    ensures xs <= ys && ChosenValue(FreeExec(Init(3), ys), 9)
  {
    var y, z, d := Acceptor(6, 3, 9, true), Acceptor(6, 6, 9, true), Attempt(6, 0, {1, 2}, 3, 9, true, {});
    var w1 := World([x, Acceptor(6, 0, 0, false), y], [c, a, d.(closed := false)]);
    var w2 := World([x, z, y], [c, a, d.(acceptedBy := {1})]);
    var w3 := World([x, z, z], [c, a, d.(acceptedBy := {1, 2})]);
    assert {1} + {2} == d.promisedBy;
    ys := Extend(xs, FreeExec(Init(3), xs), Prepare(2, 2), w1);
    assert |d.promisedBy| == 2 && w2.attempts[2].acceptedBy == {} + {1};
    ys := Extend(ys, w1, Accept(2, 1), w2);
    assert w3.attempts[2].acceptedBy == w2.attempts[2].acceptedBy + {2};
    ys := Extend(ys, w2, Accept(2, 2), w3);
    assert |w3.attempts[2].acceptedBy| == 2;
    assert Chosen(w3, 2) && w3.attempts[2].Value() == 9;
  }

  // ---------- The code: acceptors, phases and the synchronous instance ----------

  datatype Proposer = Proposer(num: nat, value: int)

  // ---------- The two phases at all acceptors ----------

  ghost function PrepareSteps(t: nat, k: nat): seq<Step> { seq(k, i requires 0 <= i => Prepare(t, i)) }

  ghost function AcceptSteps(t: nat, k: nat): seq<Step> { seq(k, i requires 0 <= i => Accept(t, i)) }

  // The first k acceptors have been asked to promise, or to accept.
  function PromiseFirst(xs: seq<Acceptor>, num: nat, k: nat): seq<Acceptor> {
    seq(|xs|, i requires 0 <= i < |xs| => if i < k then PromiseStep(xs[i], num) else xs[i])
  }

  function AcceptFirst(xs: seq<Acceptor>, num: nat, value: int, k: nat): seq<Acceptor> {
    seq(|xs|, i requires 0 <= i < |xs| => if i < k then AcceptStep(xs[i], num, value) else xs[i])
  }

  ghost function Promisers(xs: seq<Acceptor>, num: nat, k: nat): set<nat>
    requires k <= |xs|
  {
    set i: nat | i < k && Promises(xs[i], num)
  }

  ghost function Accepters(xs: seq<Acceptor>, num: nat, k: nat): set<nat>
    requires k <= |xs|
  {
    set i: nat | i < k && Accepts(xs[i], num)
  }

  // The acceptance of highest number that the first k promises report, if any.
  function Highest(xs: seq<Acceptor>, num: nat, k: nat): (nat, int)
    requires k <= |xs|
  {
    if k == 0 then (0, 0) else
    var (n, v) := Highest(xs, num, k - 1);
    var a := xs[k - 1];
    if Promises(a, num) && a.hasAccepted && a.acceptedNum > n then (a.acceptedNum, a.acceptedValue) else (n, v)
  }

  lemma {:induction false} CountNext(xs: seq<Acceptor>, num: nat, k: nat)
    requires k < |xs|
    ensures Promisers(xs, num, k + 1) == Promisers(xs, num, k) + if Promises(xs[k], num) then {k} else {}
    ensures Accepters(xs, num, k + 1) == Accepters(xs, num, k) + if Accepts(xs[k], num) then {k} else {}
  {
  }

  lemma {:induction false} SizeNext(xs: seq<Acceptor>, num: nat, k: nat)
    requires k < |xs|
    ensures |Promisers(xs, num, k + 1)| == |Promisers(xs, num, k)| + if Promises(xs[k], num) then 1 else 0
    ensures |Accepters(xs, num, k + 1)| == |Accepters(xs, num, k)| + if Accepts(xs[k], num) then 1 else 0
  {
    CountNext(xs, num, k);
  }

  // The world after attempt t has asked the first k acceptors to promise.
  ghost function Prepared(w: World, t: nat, k: nat): World
    requires t < |w.attempts| && k <= |w.acceptors|
  {
    var p, (n, v) := w.attempts[t], Highest(w.acceptors, w.attempts[t].num, k);
    World(PromiseFirst(w.acceptors, p.num, k),
          w.attempts[t := p.(promisedBy := Promisers(w.acceptors, p.num, k), highestNum := n, highestValue := v)])
  }

  // What one message does, by parts.
  lemma {:induction false} PrepareEffect(v: World, t: nat, k: nat, u: World)
    requires t < |v.attempts| && k < |v.acceptors| && !v.attempts[t].closed && u == Apply(v, Prepare(t, k))
    ensures var a, p := v.acceptors[k], v.attempts[t];
            if !Promises(a, p.num) then u == v else
            var q := p.(promisedBy := p.promisedBy + {k});
            && u.acceptors == v.acceptors[k := a.(promised := p.num)]
            && u.attempts == v.attempts[
                 t := if a.hasAccepted && a.acceptedNum > p.highestNum
                      then q.(highestNum := a.acceptedNum, highestValue := a.acceptedValue) else q]
  {
  }

  lemma {:induction false} AcceptEffect(v: World, t: nat, k: nat, u: World)
    requires t < |v.attempts| && k < |v.acceptors| && |v.attempts[t].promisedBy| >= Quorum.Size(|v.acceptors|)
    requires k in v.attempts[t].promisedBy && u == Apply(v, Accept(t, k))
    ensures var a, p := v.acceptors[k], v.attempts[t];
            && u.acceptors == v.acceptors[k := AcceptStep(a, p.num, p.Value())]
            && var backers := if Accepts(a, p.num) then p.acceptedBy + {k} else p.acceptedBy;
               u.attempts == v.attempts[t := p.(closed := true, acceptedBy := backers)]
  {
  }

  lemma {:induction false} PrepareNext(w: World, t: nat, k: nat)
    requires t < |w.attempts| && k < |w.acceptors| && !w.attempts[t].closed
    ensures Apply(Prepared(w, t, k), Prepare(t, k)) == Prepared(w, t, k + 1)
  {
    var xs, num, v, u := w.acceptors, w.attempts[t].num, Prepared(w, t, k), Prepared(w, t, k + 1);
    CountNext(xs, num, k);
    PrepareEffect(v, t, k, Apply(v, Prepare(t, k)));
    assert v.acceptors[k] == xs[k];
    assert Apply(v, Prepare(t, k)).acceptors == u.acceptors;
    assert Apply(v, Prepare(t, k)).attempts[t] == u.attempts[t];
    assert Apply(v, Prepare(t, k)).attempts == u.attempts;
  }

  lemma {:induction false} PrepareRun(w: World, t: nat, k: nat)
    requires t < |w.attempts| && k <= |w.acceptors|
    requires w.attempts[t] == Attempt(w.attempts[t].num, w.attempts[t].ownValue, {}, 0, 0, false, {})
    ensures Exec(w, PrepareSteps(t, k)) == Prepared(w, t, k)
  {
    if k == 0 {
      assert PromiseFirst(w.acceptors, w.attempts[t].num, 0) == w.acceptors;
      assert w.attempts[t := w.attempts[t]] == w.attempts && Promisers(w.acceptors, w.attempts[t].num, 0) == {};
    } else {
      PrepareRun(w, t, k - 1);
      assert PrepareSteps(t, k)[..k - 1] == PrepareSteps(t, k - 1);
      PrepareNext(w, t, k - 1);
    }
  }

  // The world after attempt t has asked the first k acceptors to accept.
  ghost function AcceptedBy(w: World, t: nat, k: nat): World
    requires t < |w.attempts| && k <= |w.acceptors|
  {
    var p := w.attempts[t];
    World(AcceptFirst(w.acceptors, p.num, p.Value(), k),
          w.attempts[t := p.(closed := p.closed || k > 0, acceptedBy := Accepters(w.acceptors, p.num, k))])
  }

  // All acceptors promised to the attempt, and that is a quorum.
  ghost predicate AllPromised(w: World, t: nat) {
    && t < |w.attempts| && |w.attempts[t].promisedBy| >= Quorum.Size(|w.acceptors|)
    && forall i :: 0 <= i < |w.acceptors| ==> i in w.attempts[t].promisedBy
  }

  lemma {:induction false} AcceptNext(w: World, t: nat, k: nat)
    requires AllPromised(w, t) && k < |w.acceptors|
    ensures Apply(AcceptedBy(w, t, k), Accept(t, k)) == AcceptedBy(w, t, k + 1)
  {
    var p, v, u := w.attempts[t], AcceptedBy(w, t, k), AcceptedBy(w, t, k + 1);
    CountNext(w.acceptors, p.num, k);
    AcceptEffect(v, t, k, Apply(v, Accept(t, k)));
    assert v.attempts[t].Value() == p.Value() && v.acceptors[k] == w.acceptors[k];
    assert Apply(v, Accept(t, k)).acceptors == u.acceptors;
    assert Apply(v, Accept(t, k)).attempts[t] == u.attempts[t];
    assert Apply(v, Accept(t, k)).attempts == u.attempts;
  }

  lemma {:induction false} AcceptRun(w: World, t: nat, k: nat)
    requires AllPromised(w, t) && k <= |w.acceptors| && w.attempts[t].acceptedBy == {}
    ensures Exec(w, AcceptSteps(t, k)) == AcceptedBy(w, t, k)
  {
    var p := w.attempts[t];
    if k == 0 {
      assert AcceptFirst(w.acceptors, p.num, p.Value(), 0) == w.acceptors;
      assert w.attempts[t := p] == w.attempts && Accepters(w.acceptors, p.num, 0) == {};
    } else {
      AcceptRun(w, t, k - 1);
      assert AcceptSteps(t, k)[..k - 1] == AcceptSteps(t, k - 1);
      AcceptNext(w, t, k - 1);
    }
  }

  // One attempt at acceptors that have all promised the same number: a new attempt,
  // prepared everywhere and, given a quorum of promises, accepted everywhere.
  ghost predicate Level(xs: seq<Acceptor>) {
    forall i, j :: 0 <= i < |xs| && 0 <= j < |xs| ==> xs[i].promised == xs[j].promised
  }

  lemma {:induction false} LevelPromises(xs: seq<Acceptor>, num: nat)
    requires Level(xs)
    ensures Level(PromiseFirst(xs, num, |xs|))
    ensures Promisers(xs, num, |xs|) == {} || forall i :: 0 <= i < |xs| ==> i in Promisers(xs, num, |xs|)
  {
  }

  lemma {:induction false} AcceptLevel(xs: seq<Acceptor>, num: nat, value: int, k: nat)
    requires Level(xs)
    ensures Level(AcceptFirst(xs, num, value, k))
  {
    assert forall i :: 0 <= i < |xs| ==> AcceptFirst(xs, num, value, k)[i].promised == xs[i].promised;
  }

  // A quorum of promises from level acceptors is a promise of all of them.
  lemma {:induction false} PreparedQuorum(w: World, t: nat, n: nat, num: nat, value: int)
    requires t < |w.attempts| && n == |w.acceptors| && Level(w.acceptors)
    requires w.attempts[t] == Attempt(num, value, {}, 0, 0, false, {})
    ensures var v := Prepared(w, t, n);
            && Level(v.acceptors) && |v.acceptors| == n && v.attempts[t].acceptedBy == {} && v.attempts[t].num == num
            && |v.attempts[t].promisedBy| == |Promisers(w.acceptors, num, n)|
            && (|v.attempts[t].promisedBy| >= Quorum.Size(n) ==> AllPromised(v, t))
            && v.attempts[t].Value() ==
               (if Highest(w.acceptors, num, n).0 > 0 then Highest(w.acceptors, num, n).1 else value)
  {
    LevelPromises(w.acceptors, num);
  }

  lemma {:induction false} AttemptRun(w: World, num: nat, value: int, steps: seq<Step>, w1: World)
    requires w1 == Apply(w, Start(num, value))
    requires steps == [Start(num, value)] + PrepareSteps(|w.attempts|, |w.acceptors|)
    ensures |w1.attempts| == |w.attempts| + 1 && w1.acceptors == w.acceptors
    ensures Exec(w, steps) == Prepared(w1, |w.attempts|, |w.acceptors|)
  {
    var t := |w.attempts|;
    assert [Start(num, value)][..0] == [];
    assert Exec(w, [Start(num, value)]) == w1;
    ExecSplit(w, [Start(num, value)], PrepareSteps(t, |w.acceptors|));
    PrepareRun(w1, t, |w.acceptors|);
  }

  // ---------- When an attempt succeeds ----------

  lemma {:induction false} EverybodyCounts(n: nat, s: set<nat>)
    requires forall i: nat :: i < n <==> i in s
    ensures |s| == n
  {
    if n == 0 {
      assert s == {};
    } else {
      EverybodyCounts(n - 1, s - {n - 1});
    }
  }

  ghost predicate AllBelow(xs: seq<Acceptor>, num: nat) { forall i :: 0 <= i < |xs| ==> xs[i].promised < num }

  // Level acceptors all promise, or none does and nothing changes.
  lemma {:induction false} LevelOutcome(xs: seq<Acceptor>, num: nat, ys: seq<Acceptor>)
    requires Level(xs) && |xs| > 0 && ys == PromiseFirst(xs, num, |xs|)
    ensures |Promisers(xs, num, |xs|)| >= Quorum.Size(|xs|) <==> AllBelow(xs, num)
    ensures if AllBelow(xs, num) then |ys| == |xs| && forall i :: 0 <= i < |xs| ==> ys[i] == xs[i].(promised := num)
            else ys == xs
  {
    var s := Promisers(xs, num, |xs|);
    if AllBelow(xs, num) {
      EverybodyCounts(|xs|, s);
    } else {
      assert s == {};
    }
  }

  // Acceptors that have promised the number all accept it.
  lemma {:induction false} AcceptOutcome(xs: seq<Acceptor>, num: nat, value: int, ys: seq<Acceptor>)
    requires |xs| > 0 && (forall i :: 0 <= i < |xs| ==> xs[i].promised == num)
    requires ys == AcceptFirst(xs, num, value, |xs|)
    ensures |Accepters(xs, num, |xs|)| >= Quorum.Size(|xs|)
    ensures |ys| == |xs| && forall i :: 0 <= i < |xs| ==> ys[i] == Acceptor(num, num, value, true)
  {
    EverybodyCounts(|xs|, Accepters(xs, num, |xs|));
  }

  // Acceptor i holds the acceptance of highest number among the first k.
  ghost predicate Top(xs: seq<Acceptor>, k: nat, i: nat) {
    && i < k <= |xs| && xs[i].hasAccepted && xs[i].acceptedNum > 0
    && forall j :: 0 <= j < k && xs[j].hasAccepted ==> xs[j].acceptedNum <= xs[i].acceptedNum
  }

  // The value an attempt has to carry: that of the highest acceptance, or its own.
  ghost predicate Carries(xs: seq<Acceptor>, k: nat, own: int, value: int) {
    || (value == own && k <= |xs| && forall j :: 0 <= j < k && xs[j].hasAccepted ==> xs[j].acceptedNum == 0)
    || exists i: nat :: Top(xs, k, i) && xs[i].acceptedValue == value
  }

  lemma {:induction false} HighestCarries(xs: seq<Acceptor>, num: nat, k: nat, own: int)
    requires k <= |xs| && AllBelow(xs, num)
    ensures var (n, v) := Highest(xs, num, k);
            && (n == 0 ==> Carries(xs, k, own, own))
            && (n > 0 ==> exists i: nat :: Top(xs, k, i) && xs[i].acceptedNum == n && xs[i].acceptedValue == v)
            && forall j :: 0 <= j < k && xs[j].hasAccepted ==> xs[j].acceptedNum <= n
  {
    if k > 0 {
      HighestCarries(xs, num, k - 1, own);
      var (n, v) := Highest(xs, num, k - 1);
      var a := xs[k - 1];
      assert Promises(a, num);
      if a.hasAccepted && a.acceptedNum > n {
        assert Top(xs, k, k - 1);
      } else if n > 0 {
        var i: nat :| Top(xs, k - 1, i) && xs[i].acceptedNum == n && xs[i].acceptedValue == v;
        assert Top(xs, k, i);
      }
    }
  }

  lemma {:induction false} FreshCarries(xs: seq<Acceptor>, k: nat, own: int, value: int)
    requires Carries(xs, k, own, value)
    ensures (forall i :: 0 <= i < k ==> !xs[i].hasAccepted) ==> value == own
  {
  }

  class PaxosCluster {
    const n: nat
    const acceptors: array<Acceptor>
    const proposers: array<Proposer>
    const learners: array<Learner>
    ghost var world: World  // the history of all attempts made so far

    ghost predicate Shape()
      reads this, acceptors
    {
      && acceptors.Length == n && proposers.Length == n && learners.Length == n
      && world.acceptors == acceptors[..]
    }

    // Instances run one at a time, so all acceptors have promised the same number.
    ghost predicate InStep()
      reads this, acceptors
    {
      Shape() && Level(acceptors[..])
    }

    ghost predicate Valid()
      reads this, acceptors, learners
    {
      && InStep() && Inv(world)
      && (forall i :: 0 <= i < n && learners[i].hasLearned ==> ChosenValue(world, learners[i].value))
    }

    constructor (n: nat)
      ensures this.n == n && Valid() && fresh(acceptors) && fresh(proposers) && fresh(learners)
      ensures world == Init(n)
      ensures forall i :: 0 <= i < n ==> proposers[i] == Proposer(0, 0) && learners[i] == Learner(0, 0, false)
    {
      this.n := n;
      acceptors := new Acceptor[n](_ => BLANK);
      proposers := new Proposer[n](_ => Proposer(0, 0));
      learners := new Learner[n](_ => Learner(0, 0, false));
      world := Init(n);
      new;
      assert acceptors[..] == Init(n).acceptors;
    }

    method Promise(i: nat, num: nat) returns (granted: bool, prevNum: nat, prevValue: int, hasPrev: bool)
      requires i < acceptors.Length
      modifies acceptors
      ensures acceptors[..] == old(acceptors[..])[i := PromiseStep(old(acceptors[i]), num)]
      ensures granted == Promises(old(acceptors[i]), num)
      ensures granted ==> prevNum == old(acceptors[i].acceptedNum) && prevValue == old(acceptors[i].acceptedValue)
                          && hasPrev == old(acceptors[i].hasAccepted)
    {
      granted, prevNum, prevValue, hasPrev := false, 0, 0, false;
      if num <= acceptors[i].promised {
        return;
      }
      prevNum, prevValue, hasPrev := acceptors[i].acceptedNum, acceptors[i].acceptedValue, acceptors[i].hasAccepted;
      acceptors[i] := acceptors[i].(promised := num);
      granted := true;
    }

    method Accepted(i: nat, num: nat, value: int) returns (ok: bool)
      requires i < acceptors.Length
      modifies acceptors
      ensures acceptors[..] == old(acceptors[..])[i := AcceptStep(old(acceptors[i]), num, value)]
      ensures ok == Accepts(old(acceptors[i]), num)
    {
      if num < acceptors[i].promised {
        return false;
      }
      acceptors[i] := Acceptor(acceptors[i].promised, num, value, true);
      ok := true;
    }

    // Phase 1 at every acceptor.
    method PreparePhase(p: nat) returns (prepared: bool, promiseCount: nat, highestNum: nat, highestValue: int)
      requires acceptors.Length == n == proposers.Length && p < n
      modifies acceptors, proposers
      ensures acceptors[..] == PromiseFirst(old(acceptors[..]), old(proposers[p].num), n)
      ensures promiseCount == |Promisers(old(acceptors[..]), old(proposers[p].num), n)|
      ensures (highestNum, highestValue) == Highest(old(acceptors[..]), old(proposers[p].num), n)
      ensures prepared == (promiseCount >= Quorum.Size(n))
      ensures proposers[..] == old(proposers[..])[
                p := if highestNum > 0 then old(proposers[p]).(value := highestValue) else old(proposers[p])]
    {
      promiseCount, highestNum, highestValue := 0, 0, 0;
      ghost var xs, num := acceptors[..], proposers[p].num;
      var i := 0;
      while i < n
        invariant 0 <= i <= n && acceptors[..] == PromiseFirst(xs, num, i) && proposers[..] == old(proposers[..])
        invariant promiseCount == |Promisers(xs, num, i)| && (highestNum, highestValue) == Highest(xs, num, i)
      {
        SizeNext(xs, num, i);
        assert acceptors[i] == acceptors[..][i] == xs[i];
        var granted, prevNum, prevValue, hasPrev := Promise(i, proposers[p].num);
        if granted {
          promiseCount := promiseCount + 1;
          if hasPrev && prevNum > highestNum {
            highestNum, highestValue := prevNum, prevValue;
          }
        }
        i := i + 1;
      }
      if highestNum > 0 {
        proposers[p] := proposers[p].(value := highestValue);
      }
      prepared := promiseCount >= n / 2 + 1;
    }

    // Phase 2 at every acceptor, whatever it has promised.
    method AcceptPhase(p: nat, value: int) returns (ok: bool, acceptCount: nat)
      requires acceptors.Length == n == proposers.Length && p < n
      modifies acceptors
      ensures acceptors[..] == AcceptFirst(old(acceptors[..]), proposers[p].num, value, n)
      ensures acceptCount == |Accepters(old(acceptors[..]), proposers[p].num, n)|
      ensures ok == (acceptCount >= Quorum.Size(n))
    {
      acceptCount := 0;
      ghost var xs, num := acceptors[..], proposers[p].num;
      var i := 0;
      while i < n
        invariant 0 <= i <= n && acceptors[..] == AcceptFirst(xs, num, value, i)
        invariant acceptCount == |Accepters(xs, num, i)|
      {
        SizeNext(xs, num, i);
        assert acceptors[i] == acceptors[..][i] == xs[i];
        var accepted := Accepted(i, proposers[p].num, value);
        if accepted {
          acceptCount := acceptCount + 1;
        }
        i := i + 1;
      }
      ok := acceptCount >= n / 2 + 1;
    }

    method Learn(value: int, round: nat)
      requires learners.Length == n
      modifies learners
      ensures forall i :: 0 <= i < n ==> learners[i] == Learner(value, round, true)
    {
      var i := 0;
      while i < n
        invariant 0 <= i <= n
        invariant forall j :: 0 <= j < i ==> learners[j] == Learner(value, round, true)
      {
        learners[i] := Learner(value, round, true);
        i := i + 1;
      }
    }

    // A new attempt, prepared at every acceptor.
    method PrepareAttempt(p: nat, value: int) returns (prepared: bool, finalValue: int, ghost steps: seq<Step>)
      requires InStep() && p < n && proposers[p].value == value
      modifies acceptors, proposers, `world
      ensures InStep() && world == Exec(old(world), steps) && proposers[p].num == old(proposers[p].num)
      ensures var t := |old(world).attempts|;
              && t < |world.attempts| && world.attempts[t].acceptedBy == {}
              && world.attempts[t].num == proposers[p].num && world.attempts[t].Value() == finalValue
              && (prepared ==> AllPromised(world, t))
      ensures prepared <==> AllBelow(old(acceptors[..]), proposers[p].num)
      ensures if prepared then forall i :: 0 <= i < n ==>
                                     acceptors[i] == old(acceptors[i]).(promised := proposers[p].num)
              else acceptors[..] == old(acceptors[..])
      ensures prepared ==> Carries(old(acceptors[..]), n, value, finalValue)
    {
      ghost var xs := acceptors[..];
      ghost var num, t, w0 := proposers[p].num, |world.attempts|, world;
      ghost var w1 := Apply(w0, Start(num, value));
      var promiseCount, highestNum, highestValue;
      prepared, promiseCount, highestNum, highestValue := PreparePhase(p);
      steps := [Start(num, value)] + PrepareSteps(t, n);
      AttemptRun(w0, num, value, steps, w1);
      PreparedQuorum(w1, t, n, num, value);
      world := Prepared(w1, t, n);
      finalValue := if highestNum > 0 then highestValue else value;
      LevelOutcome(xs, num, acceptors[..]);
      if prepared {
        HighestCarries(xs, num, n, value);
      }
    }

    // The attempt accepted at every acceptor, all of which promised to it.
    method AcceptAttempt(p: nat, value: int, ghost t: nat) returns (ok: bool, ghost steps: seq<Step>)
      requires InStep() && p < n && AllPromised(world, t) && world.attempts[t].acceptedBy == {}
      requires world.attempts[t].num == proposers[p].num && world.attempts[t].Value() == value
      modifies acceptors, `world
      ensures InStep() && world == Exec(old(world), steps) && (ok ==> ChosenValue(world, value))
      ensures (forall i :: 0 <= i < n ==> old(acceptors[i].promised) == proposers[p].num) ==>
                ok && forall i :: 0 <= i < n ==>
                            acceptors[i] == Acceptor(proposers[p].num, proposers[p].num, value, true)
    {
      ghost var w := world;
      var acceptCount;
      ok, acceptCount := AcceptPhase(p, value);
      steps := AcceptSteps(t, n);
      AcceptRun(w, t, n);
      AcceptLevel(w.acceptors, proposers[p].num, value, n);
      world := AcceptedBy(w, t, n);
      assert ok ==> Chosen(world, t) && world.attempts[t].Value() == value;
      if forall i :: 0 <= i < n ==> w.acceptors[i].promised == proposers[p].num {
        AcceptOutcome(w.acceptors, proposers[p].num, value, acceptors[..]);
      }
    }

    // Both phases.
    method Propose(p: nat, value: int) returns (ok: bool, finalValue: int, ghost steps: seq<Step>)
      requires InStep() && p < n
      modifies acceptors, proposers, `world
      ensures InStep() && world == Exec(old(world), steps)
      ensures proposers[p].num == (p + 1) * 1000 + old(proposers[p].num) % 1000 + 1
      ensures ok ==> ChosenValue(world, finalValue)
      ensures ok <==> AllBelow(old(acceptors[..]), proposers[p].num)
      ensures if ok then forall i :: 0 <= i < n ==>
                               acceptors[i] == Acceptor(proposers[p].num, proposers[p].num, finalValue, true)
              else acceptors[..] == old(acceptors[..])
      ensures ok ==> Carries(old(acceptors[..]), n, value, finalValue)
    {
      proposers[p] := Proposer((p + 1) * 1000 + proposers[p].num % 1000 + 1, value);
      ghost var w, t := world, |world.attempts|;
      var prepared;
      prepared, finalValue, steps := PrepareAttempt(p, value);
      if !prepared {
        ok := false;
        return;
      }
      ghost var more;
      ok, more := AcceptAttempt(p, finalValue, t);
      ExecSplit(w, steps, more);
      steps := steps + more;
    }

    // The history only grows by protocol steps. A call succeeds exactly when its
    // number is above every promise; then every acceptor accepts and every learner
    // learns the value of the highest acceptance so far, or the proposed one if there
    // is none, and whatever was chosen before is that value. Otherwise nothing changes.
    method RunInstance(p: nat, value: int) returns (ok: bool)
      requires Valid() && p < n
      modifies acceptors, proposers, learners, `world
      ensures Valid()
      ensures proposers[p].num == (p + 1) * 1000 + old(proposers[p].num) % 1000 + 1
      ensures exists steps :: world == Exec(old(world), steps)
      ensures ok <==> forall i :: 0 <= i < n ==> old(acceptors[i].promised) < proposers[p].num
      ensures !ok ==> learners[..] == old(learners[..]) && acceptors[..] == old(acceptors[..])
      ensures ok ==> exists v ::
                && Carries(old(acceptors[..]), n, value, v)
                && (forall i :: 0 <= i < n ==> learners[i] == Learner(v, proposers[p].num, true))
                && forall i :: 0 <= i < n ==> acceptors[i] == Acceptor(proposers[p].num, proposers[p].num, v, true)
      ensures ok && (forall i :: 0 <= i < n ==> !old(acceptors[i].hasAccepted)) ==>
                forall i :: 0 <= i < n ==> learners[i].value == value
      ensures ok ==> exists v :: ChosenValue(world, v) && (forall u :: ChosenValue(old(world), u) ==> u == v)
                       && forall i :: 0 <= i < n ==> learners[i] == Learner(v, proposers[p].num, true)
      ensures forall u :: ChosenValue(old(world), u) ==> ChosenValue(world, u)
    {
      var finalValue;
      ghost var steps;
      ok, finalValue, steps := Propose(p, value);
      HistoryKept(old(world), world, steps);
      if ok {
        Learn(finalValue, proposers[p].num);
        FreshCarries(old(acceptors[..]), n, value, finalValue);
      }
    }
  }

  lemma {:induction false} HistoryKept(w: World, w': World, steps: seq<Step>)
    requires Inv(w) && w' == Exec(w, steps)
    ensures Inv(w')
    ensures forall u :: ChosenValue(w, u) ==> ChosenValue(w', u)
    ensures forall u, v :: ChosenValue(w, u) && ChosenValue(w', v) ==> u == v
  {
    ExecKeepsInv(w, steps);
    forall u | ChosenValue(w, u)
      ensures ChosenValue(w', u) && forall v :: ChosenValue(w', v) ==> u == v
    {
      var t: nat :| Chosen(w, t) && w.attempts[t].Value() == u;
      ExecKeepsChosen(w, steps, t);
      forall v | ChosenValue(w', v) ensures u == v {
        var b: nat :| Chosen(w', b) && w'.attempts[b].Value() == v;
        ChosenAgree(w', t, b);
      }
    }
  }
}
