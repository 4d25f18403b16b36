/** The text of a benchmark failure: the first five leaves of a tree of exception groups. */
module FailureMessage {
  datatype Exc = Leaf(name: string, text: string) | Group(name: string, exceptions: seq<Exc>)

  function Describe(name: string, text: string): string {
    name + ": " + text
  }

  /** The leaves from left to right, depth first. */
  function Leaves(e: Exc): seq<string>
    decreases e
  {
    match e
    case Leaf(name, text) => [Describe(name, text)]
    case Group(_, exceptions) => AllLeaves(exceptions)
  }

  function AllLeaves(es: seq<Exc>): seq<string>
    decreases es
  {
    if es == [] then [] else Leaves(es[0]) + AllLeaves(es[1..])
  }

  /** How many exceptions and groups are in the trees. */
  function Nodes(e: Exc): nat
    decreases e
  {
    match e
    case Leaf(_, _) => 1
    case Group(_, exceptions) => 1 + AllNodes(exceptions)
  }

  function AllNodes(es: seq<Exc>): nat
    decreases es
  {
    if es == [] then 0 else Nodes(es[0]) + AllNodes(es[1..])
  }

  lemma Reassociate(a: seq<string>, b: seq<string>, c: seq<string>)
    ensures a + (b + c) == a + b + c
  {
  }

  lemma {:induction false} OfConcat(a: seq<Exc>, b: seq<Exc>)
    ensures AllLeaves(a + b) == AllLeaves(a) + AllLeaves(b)
    ensures AllNodes(a + b) == AllNodes(a) + AllNodes(b)
  {
    if a == [] {
      assert a + b == b;
    } else {
      OfConcat(a[1..], b);
      assert (a + b)[0] == a[0] && (a + b)[1..] == a[1..] + b;
      Reassociate(Leaves(a[0]), AllLeaves(a[1..]), AllLeaves(b));
    }
  }

  function FirstFive(leaves: seq<string>): seq<string> {
    if |leaves| <= 5 then leaves else leaves[..5]
  }

  function Join(separator: string, parts: seq<string>): string {
    if parts == [] then ""
    else if |parts| == 1 then parts[0]
    else parts[0] + separator + Join(separator, parts[1..])
  }

  /** The leaves that are shown: as many as there are up to five, from the left. */
  lemma FirstFiveMeaning(leaves: seq<string>)
    ensures FirstFive(leaves) <= leaves && |FirstFive(leaves)| == if |leaves| < 5 then |leaves| else 5
  {
  }

  /** Joined parts stand in order with exactly one separator between neighbours. */
  lemma {:induction false} JoinOfConcat(separator: string, a: seq<string>, b: seq<string>)
    ensures Join(separator, []) == "" && forall part :: Join(separator, [part]) == part
    ensures a != [] && b != [] ==> Join(separator, a + b) == Join(separator, a) + separator + Join(separator, b)
  {
    if |a| == 1 {
      assert (a + b)[0] == a[0] && (a + b)[1..] == b;
    } else if |a| > 1 {
      JoinOfConcat(separator, a[1..], b);
      assert (a + b)[0] == a[0] && (a + b)[1..] == a[1..] + b;
    }
  }

  /** The work-list: a group is replaced in place by its members, a leaf is kept. */
  method FailureMessage(exc: Exc) returns (message: string)
    ensures exc.Leaf? ==> message == Describe(exc.name, exc.text)
    ensures exc.Group? ==> message == Describe(exc.name, Join(" | ", FirstFive(Leaves(exc))))
  {
    if exc.Leaf? {
      return Describe(exc.name, exc.text);
    }
    var leaves: seq<string> := [];
    var pending := exc.exceptions;
    while pending != [] && |leaves| < 5
      invariant |leaves| <= 5
      invariant leaves + AllLeaves(pending) == Leaves(exc)
      decreases AllNodes(pending)
    {
      assert AllNodes(pending) == Nodes(pending[0]) + AllNodes(pending[1..]);
      var current := pending[0];
      pending := pending[1..];
      match current
      case Group(_, exceptions) =>
        OfConcat(exceptions, pending);
        pending := exceptions + pending;
      case Leaf(name, text) =>
        leaves := leaves + [Describe(name, text)];
    }
    assert leaves == FirstFive(Leaves(exc));
    return Describe(exc.name, Join(" | ", leaves));
  }

  // ---------- the order of the leaves, by their paths ----------

  /** Which member to take at each group on the way down to a leaf. */
  type Path = seq<nat>

  predicate IsLeafPath(e: Exc, p: Path)
    decreases p
  {
    if p == [] then e.Leaf? else e.Group? && p[0] < |e.exceptions| && IsLeafPath(e.exceptions[p[0]], p[1..])
  }

  function At(e: Exc, p: Path): string
    requires IsLeafPath(e, p)
    decreases p
  {
    if p == [] then Describe(e.name, e.text) else At(e.exceptions[p[0]], p[1..])
  }

  /** How many leaves come before the one at the path. */
  function Position(e: Exc, p: Path): nat
    requires IsLeafPath(e, p)
    decreases p
  {
    if p == [] then 0 else |AllLeaves(e.exceptions[..p[0]])| + Position(e.exceptions[p[0]], p[1..])
  }

  /** Lexicographic order. */
  predicate Earlier(p: Path, q: Path)
    decreases p
  {
    p != [] && q != [] && (p[0] < q[0] || (p[0] == q[0] && Earlier(p[1..], q[1..])))
  }

  lemma AroundMember(es: seq<Exc>, i: nat)
    requires i < |es|
    ensures AllLeaves(es) == AllLeaves(es[..i]) + Leaves(es[i]) + AllLeaves(es[i + 1..])
  {
    var front, back := es[..i], es[i..];
    assert front + back == es;
    OfConcat(front, back);
    assert back[0] == es[i] && back[1..] == es[i + 1..];
    Reassociate(AllLeaves(front), Leaves(es[i]), AllLeaves(es[i + 1..]));
  }

  /** The leaf at a path stands at its position. */
  lemma {:induction false} PathLeadsToItsLeaf(e: Exc, p: Path)
    requires IsLeafPath(e, p)
    ensures Position(e, p) < |Leaves(e)| && Leaves(e)[Position(e, p)] == At(e, p)
    decreases p
  {
    if p != [] {
      PathLeadsToItsLeaf(e.exceptions[p[0]], p[1..]);
      AroundMember(e.exceptions, p[0]);
    }
  }

  /** Leaves stand in the lexicographic order of their paths. */
  lemma {:induction false} PathsAreInOrder(e: Exc, p: Path, q: Path)
    requires IsLeafPath(e, p) && IsLeafPath(e, q) && Earlier(p, q)
    ensures Position(e, p) < Position(e, q)
    decreases p
  {
    var i, j := p[0], q[0];
    if i == j {
      PathsAreInOrder(e.exceptions[i], p[1..], q[1..]);
    } else {
      PathLeadsToItsLeaf(e.exceptions[i], p[1..]);
      AroundMember(e.exceptions[..j], i);
      assert e.exceptions[..j][..i] == e.exceptions[..i];
    }
  }

  /** Every position is that of some path: nothing but leaves is listed, and no leaf is left out. */
  lemma {:induction false} EveryLeafHasAPath(e: Exc, n: nat) returns (p: Path)
    requires n < |Leaves(e)|
    ensures IsLeafPath(e, p) && Position(e, p) == n
    decreases e, 1
  {
    if e.Leaf? {
      p := [];
    } else {
      var i, rest := MemberOfLeaf(e.exceptions, n);
      var tail := EveryLeafHasAPath(e.exceptions[i], rest);
      p := [i] + tail;
      assert p[1..] == tail;
    }
  }

  lemma {:induction false} MemberOfLeaf(es: seq<Exc>, n: nat) returns (i: nat, rest: nat)
    requires n < |AllLeaves(es)|
    ensures i < |es| && rest < |Leaves(es[i])| && n == |AllLeaves(es[..i])| + rest
    decreases |es|
  {
    if n < |Leaves(es[0])| {
      i, rest := 0, n;
    } else {
      i, rest := MemberOfLeaf(es[1..], n - |Leaves(es[0])|);
      i := i + 1;
      assert es[..i] == [es[0]] + es[1..][..i - 1];
      OfConcat([es[0]], es[1..][..i - 1]);
      assert [es[0]][1..] == [];
    }
  }
}
