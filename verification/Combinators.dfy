/** The combinator matchers of Sizzle, which remember on the nodes whether something above them matched, and why
    that memory never changes an answer.

    A walk along `dir` puts one shared cell on all the nodes it visits, and writes the result into the cell when it
    ends; walks of other combinators, nested in it, may put their own cells in the same places. */
module Combinators {
  import opened Wrappers

  type Node = nat

  datatype Dir = ParentNode | PreviousSibling

  /** The document: where `dir` leads, which nodes are elements, and the pure tests of the selector.  `height` is
      the distance to the end of the chain, which is finite. */
  datatype Document = Document(
    next: (Dir, Node) -> Option<Node>, height: (Dir, Node) -> nat, element: Node -> bool, test: (nat, Node) -> bool)

  ghost predicate FiniteChains(doc: Document) {
    forall dir, n {:trigger doc.next(dir, n)} :: doc.next(dir, n).Some? ==>
          doc.height(dir, doc.next(dir, n).value) < doc.height(dir, n)
  }

  /** A compiled matcher; `name` is the number the combinator was given when it was compiled. */
  datatype Matcher =
    | Simple(test: nat)
    | Every(ms: seq<Matcher>)
    | Combinator(name: nat, dir: Dir, first: bool, base: bool, inner: Matcher)

  predicate Eligible(doc: Document, m: Matcher, n: Node)
    requires m.Combinator?
  {
    doc.element(n) || (m.base && m.dir == ParentNode)
  }

  // ---------- what a matcher means ----------

  ghost predicate Plain(doc: Document, m: Matcher, n: Node)
    requires FiniteChains(doc)
    decreases m, 1, 0
  {
    match m
    case Simple(t) => doc.test(t, n)
    case Every(ms) => forall i :: 0 <= i < |ms| ==> Plain(doc, ms[i], n)
    case Combinator(_, _, first, _, _) => if first then ClosestMatches(doc, m, n) else AnyMatches(doc, m, n)
  }

  /** The closest eligible node strictly along `dir` matches. */
  ghost predicate ClosestMatches(doc: Document, m: Matcher, n: Node)
    requires FiniteChains(doc) && m.Combinator?
    decreases m, 0, doc.height(m.dir, n)
  {
    match doc.next(m.dir, n)
    case None => false
    case Some(e) => if Eligible(doc, m, e) then Plain(doc, m.inner, e) else ClosestMatches(doc, m, e)
  }

  /** Some eligible node strictly along `dir` matches. */
  ghost predicate AnyMatches(doc: Document, m: Matcher, n: Node)
    requires FiniteChains(doc) && m.Combinator?
    decreases m, 0, doc.height(m.dir, n)
  {
    match doc.next(m.dir, n)
    case None => false
    case Some(e) => (Eligible(doc, m, e) && Plain(doc, m.inner, e)) || AnyMatches(doc, m, e)
  }

  /** What a cell on an eligible node must say: the node itself or something behind it matches. */
  ghost predicate FromHere(doc: Document, m: Matcher, n: Node)
    requires FiniteChains(doc) && m.Combinator?
  {
    Plain(doc, m.inner, n) || AnyMatches(doc, m, n)
  }

  /** The nodes strictly along `dir`, in order. */
  ghost function Chain(doc: Document, dir: Dir, n: Node): seq<Node>
    requires FiniteChains(doc)
    decreases doc.height(dir, n)
  {
    match doc.next(dir, n)
    case None => []
    case Some(e) => [e] + Chain(doc, dir, e)
  }

  /** The recursive meaning is the existence of a matching node on the chain. */
  lemma {:induction false} AnyMatchesIsExists(doc: Document, m: Matcher, n: Node)
    requires FiniteChains(doc) && m.Combinator?
    ensures AnyMatches(doc, m, n) <==>
            exists e :: e in Chain(doc, m.dir, n) && Eligible(doc, m, e) && Plain(doc, m.inner, e)
    decreases doc.height(m.dir, n)
  {
    match doc.next(m.dir, n)
    case None =>
    case Some(e) =>
      AnyMatchesIsExists(doc, m, e);
      assert forall x :: x in Chain(doc, m.dir, n) <==> x == e || x in Chain(doc, m.dir, e);
  }

  // ---------- names ----------

  /** Every combinator in `m` is the one that `table` knows by its name, and is named after what it contains. */
  ghost predicate Registered(table: map<nat, Matcher>, m: Matcher, bound: nat) {
    match m
    case Simple(_) => true
    case Every(ms) => forall i :: 0 <= i < |ms| ==> Registered(table, ms[i], bound)
    case Combinator(name, _, _, _, inner) =>
      name < bound && name in table && table[name] == m && Registered(table, inner, name)
  }

  /** One cache entry, shared by the nodes of a walk. */
  class Cell {
    const dirruns: nat
    const doneName: nat
    var result: bool

    constructor (dirruns: nat, doneName: nat)
      ensures this.dirruns == dirruns && this.doneName == doneName && !result
    {
      this.dirruns, this.doneName, result := dirruns, doneName, false;
    }
  }

  class Sizzle {
    const doc: Document
    ghost const table: map<nat, Matcher>
    var dirruns: nat
    var cache: map<(Node, Dir), Cell>

    constructor (doc: Document, ghost table: map<nat, Matcher>)
      requires FiniteChains(doc)
      ensures this.doc == doc && this.table == table && cache == map[] && Valid()
    {
      this.doc, this.table, dirruns, cache := doc, table, 0, map[];
    }

    ghost predicate Valid()
      reads this
    {
      FiniteChains(doc) && forall k {:trigger cache[k]} :: k in cache ==> cache[k].dirruns <= dirruns
    }

    /** The cell at `k` belongs to the running search; its walk is over and its result is right. */
    ghost predicate Right(k: (Node, Dir), cell: Cell)
      requires FiniteChains(doc)
      reads cell
    {
      && cell.doneName in table && table[cell.doneName].Combinator? && table[cell.doneName].dir == k.1
      && (cell.result <==> FromHere(doc, table[cell.doneName], k.0))
    }

    /** All cells of the running search are right, but for those of the walks that are still open. */
    ghost predicate Consistent(open: set<Cell>)
      requires FiniteChains(doc)
      reads this, cache.Values
    {
      forall k {:trigger cache[k]} :: k in cache && cache[k].dirruns == dirruns ==>
            cache[k] in open || Right(k, cache[k])
    }

    /** The open walks are those of combinators named `bound` or later. */
    ghost predicate OpenFrom(open: set<Cell>, bound: nat) {
      forall c {:trigger c in open} :: c in open ==> c.doneName >= bound
    }

    // ---------- the matchers ----------

    /** Runs a matcher on a node.  `open` are the cells of the walks that this call is nested in. */
    method Match(m: Matcher, elem: Node, xml: bool, ghost open: set<Cell>, ghost bound: nat) returns (r: bool)
      requires Valid() && Registered(table, m, bound) && Consistent(open) && OpenFrom(open, bound)
      modifies this`cache
      ensures r <==> Plain(doc, m, elem)
      ensures Valid() && Consistent(open)
      ensures forall k {:trigger cache[k]} :: k in cache ==>
            fresh(cache[k]) || (k in old(cache) && cache[k] == old(cache)[k])
      decreases m, 2
    {
      match m {
        case Simple(t) =>
          r := doc.test(t, elem);
        case Every(ms) =>
          var i := |ms|;
          while i > 0
            invariant Valid() && Consistent(open) && 0 <= i <= |ms|
            invariant forall j :: i <= j < |ms| ==> Plain(doc, ms[j], elem)
            invariant forall k {:trigger cache[k]} :: k in cache ==>
                  fresh(cache[k]) || (k in old(cache) && cache[k] == old(cache)[k])
          {
            i := i - 1;
            var ok := Match(ms[i], elem, xml, open, bound);
            if !ok {
              return false;
            }
          }
          r := true;
        case Combinator(_, _, first, _, _) =>
          if first {
            r := MatchClosest(m, elem, xml, open, bound);
          } else if xml {
            r := WalkXml(m, elem, open, bound);
          } else {
            r := Walk(m, elem, open, bound);
          }
      }
    }

    /** Checks the closest eligible node. */
    method MatchClosest(m: Matcher, start: Node, xml: bool, ghost open: set<Cell>, ghost bound: nat) returns (r: bool)
      requires m.Combinator? && Valid() && Registered(table, m, bound) && Consistent(open) && OpenFrom(open, bound)
      modifies this`cache
      ensures r <==> ClosestMatches(doc, m, start)
      ensures Valid() && Consistent(open)
      ensures forall k {:trigger cache[k]} :: k in cache ==>
            fresh(cache[k]) || (k in old(cache) && cache[k] == old(cache)[k])
      decreases m, 0
    {
      var cur := start;
      while doc.next(m.dir, cur).Some?
        invariant cache == old(cache)
        invariant ClosestMatches(doc, m, start) <==> ClosestMatches(doc, m, cur)
        decreases doc.height(m.dir, cur)
      {
        cur := doc.next(m.dir, cur).value;
        if Eligible(doc, m, cur) {
          r := Match(m.inner, cur, xml, open, m.name);
          return;
        }
      }
      r := false;
    }

    /** On XML nodes nothing can be remembered: looks at every eligible node. */
    method WalkXml(m: Matcher, start: Node, ghost open: set<Cell>, ghost bound: nat) returns (r: bool)
      requires m.Combinator? && !m.first && Valid() && Registered(table, m, bound) && Consistent(open)
      requires OpenFrom(open, bound)
      modifies this`cache
      ensures r <==> AnyMatches(doc, m, start)
      ensures Valid() && Consistent(open)
      ensures forall k {:trigger cache[k]} :: k in cache ==>
            fresh(cache[k]) || (k in old(cache) && cache[k] == old(cache)[k])
      decreases m, 0
    {
      var cur := start;
      while doc.next(m.dir, cur).Some?
        invariant Valid() && Consistent(open)
        invariant forall k {:trigger cache[k]} :: k in cache ==>
              fresh(cache[k]) || (k in old(cache) && cache[k] == old(cache)[k])
        invariant AnyMatches(doc, m, start) <==> AnyMatches(doc, m, cur)
        decreases doc.height(m.dir, cur)
      {
        cur := doc.next(m.dir, cur).value;
        if Eligible(doc, m, cur) {
          var ok := Match(m.inner, cur, true, open, m.name);
          if ok {
            return true;
          }
        }
      }
      r := false;
    }

    /** The nodes that hold `cell` are eligible nodes that `cur` lies behind or at, and the answer from each of
        them is the answer from `cur`. */
    ghost predicate Walked(m: Matcher, cell: Cell, cur: Node)
      requires m.Combinator? && FiniteChains(doc)
      reads this
    {
      forall k {:trigger cache[k]} :: k in cache && cache[k] == cell ==>
        && k.1 == m.dir && doc.height(m.dir, k.0) >= doc.height(m.dir, cur)
        && (FromHere(doc, m, k.0) <==> AnyMatches(doc, m, cur))
    }

    /** The same while `cur`, the node after `prev`, is being looked at. */
    ghost predicate Visiting(m: Matcher, cell: Cell, prev: Node, cur: Node)
      requires m.Combinator? && FiniteChains(doc)
      reads this
    {
      forall k {:trigger cache[k]} :: k in cache && cache[k] == cell ==>
        && k.1 == m.dir
        && (k.0 == cur || (doc.height(m.dir, k.0) >= doc.height(m.dir, prev) && (FromHere(doc, m, k.0) <==>
                AnyMatches(doc, m, prev))))
    }

    /** Puts the cell of the walk on a node and runs the inner matcher on it. */
    method Visit(m: Matcher, cell: Cell, ghost prev: Node, cur: Node, ghost open: set<Cell>,
            ghost bound: nat) returns (ok: bool)
      requires m.Combinator? && Valid() && Registered(table, m, bound) && Consistent(open + {cell})
      requires OpenFrom(open, bound)
      requires cell.dirruns == dirruns && cell.doneName == m.name && Walked(m, cell, prev)
      modifies this`cache
      ensures ok <==> Plain(doc, m.inner, cur)
      ensures Valid() && Consistent(open + {cell}) && Visiting(m, cell, prev, cur)
      ensures forall k {:trigger cache[k]} :: k in cache ==>
            fresh(cache[k]) || cache[k] == cell || (k in old(cache) && cache[k] == old(cache)[k])
      decreases m, 0
    {
      hide Plain, AnyMatches, ClosestMatches, FiniteChains;
      cache := cache[(cur, m.dir) := cell];
      ok := Match(m.inner, cur, false, open + {cell}, m.name);
    }

    /** Every node that holds the cell of a walk gives the same answer, and the cell says which. */
    ghost predicate Ended(m: Matcher, cell: Cell)
      requires m.Combinator? && FiniteChains(doc)
      reads this, cell
    {
      forall k {:trigger cache[k]} :: k in cache && cache[k] == cell ==>
            k.1 == m.dir && (FromHere(doc, m, k.0) <==> cell.result)
    }

    /** A walk that has ended is closed. */
    lemma WalkCloses(m: Matcher, cell: Cell, open: set<Cell>)
      requires m.Combinator? && FiniteChains(doc) && Consistent(open + {cell}) && Ended(m, cell)
      requires cell.doneName == m.name && m.name in table && table[m.name] == m
      ensures Consistent(open)
    {
      hide FromHere, FiniteChains;
    }

    lemma AllAnswered(m: Matcher, cell: Cell, cur: Node)
      requires m.Combinator? && FiniteChains(doc) && Walked(m, cell, cur) && (cell.result <==> AnyMatches(doc, m, cur))
      ensures Ended(m, cell)
    {
      hide AnyMatches, FromHere, FiniteChains;
    }

    /** The node just looked at matches. */
    lemma MatchAnswers(m: Matcher, cell: Cell, prev: Node, cur: Node)
      requires m.Combinator? && FiniteChains(doc) && Visiting(m, cell, prev, cur) && cell.result
      requires Plain(doc, m.inner, cur) && AnyMatches(doc, m, prev)
      ensures Ended(m, cell)
    {
      hide AnyMatches, Plain, FiniteChains;
    }

    /** The node just looked at does not match. */
    lemma WalkGoesOn(m: Matcher, cell: Cell, prev: Node, cur: Node)
      requires m.Combinator? && FiniteChains(doc) && Visiting(m, cell, prev, cur)
      requires doc.height(m.dir, cur) < doc.height(m.dir, prev)
      requires !Plain(doc, m.inner, cur) && (AnyMatches(doc, m, prev) <==> AnyMatches(doc, m, cur))
      ensures Walked(m, cell, cur)
    {
      hide AnyMatches, Plain, FiniteChains;
    }

    /** The next node is not eligible. */
    lemma WalkPasses(m: Matcher, cell: Cell, prev: Node, cur: Node)
      requires m.Combinator? && FiniteChains(doc) && Walked(m, cell, prev)
      requires doc.height(m.dir, cur) < doc.height(m.dir, prev)
      requires AnyMatches(doc, m, prev) <==> AnyMatches(doc, m, cur)
      ensures Walked(m, cell, cur)
    {
      hide AnyMatches, FromHere, FiniteChains;
    }

    /** The cell found on a node was left by an earlier walk of the same combinator. */
    lemma CellSays(m: Matcher, cell: Cell, open: set<Cell>, key: (Node, Dir))
      requires m.Combinator? && FiniteChains(doc) && Consistent(open + {cell}) && key in cache
      requires cache[key].dirruns == dirruns && cache[key].doneName == m.name && cache[key] != cell
      requires cache[key] !in open
      requires m.name in table && table[m.name] == m
      ensures cache[key].result <==> FromHere(doc, m, key.0)
    {
      hide FromHere, FiniteChains;
    }

    /** No node holds the cell of a walk that lies ahead of it. */
    lemma NotAhead(m: Matcher, cell: Cell, prev: Node, cur: Node)
      requires m.Combinator? && FiniteChains(doc) && Walked(m, cell, prev)
      requires doc.height(m.dir, cur) < doc.height(m.dir, prev)
      ensures (cur, m.dir) in cache ==> cache[(cur, m.dir)] != cell
    {
      hide FromHere, AnyMatches, FiniteChains;
    }

    /** Looks for a matching node, stopping where an earlier walk of the same combinator has been. */
    method Walk(m: Matcher, start: Node, ghost open: set<Cell>, ghost bound: nat) returns (r: bool)
      requires m.Combinator? && !m.first && Valid() && Registered(table, m, bound) && Consistent(open)
      requires OpenFrom(open, bound)
      modifies this`cache
      ensures r <==> AnyMatches(doc, m, start)
      ensures Valid() && Consistent(open)
      ensures forall k {:trigger cache[k]} :: k in cache ==>
            fresh(cache[k]) || (k in old(cache) && cache[k] == old(cache)[k])
      decreases m, 1
    {
      hide Plain, AnyMatches, ClosestMatches, FiniteChains, Walked, Visiting, Ended, Eligible;
      var cell := new Cell(dirruns, m.name);
      var cur := start;
      WalkStarts(m, cell, start, open);
      while doc.next(m.dir, cur).Some?
        invariant Valid() && Consistent(open + {cell}) && Walked(m, cell, cur) && !cell.result
        invariant forall k {:trigger cache[k]} :: k in cache ==>
              fresh(cache[k]) || (k in old(cache) && cache[k] == old(cache)[k])
        invariant AnyMatches(doc, m, start) <==> AnyMatches(doc, m, cur)
        decreases doc.height(m.dir, cur)
      {
        ghost var prev := cur;
        AnyStep(doc, m, cur);
        cur := doc.next(m.dir, cur).value;
        if Eligible(doc, m, cur) {
          var key := (cur, m.dir);
          if key in cache && cache[key].dirruns == dirruns && cache[key].doneName == m.name {
            NotAhead(m, cell, prev, cur);
            CellSays(m, cell, open, key);
            cell.result := cache[key].result;
            AllAnswered(m, cell, prev);
            WalkCloses(m, cell, open);
            return cell.result;
          } else {
            cell.result := Visit(m, cell, prev, cur, open, bound);
            if cell.result {
              MatchAnswers(m, cell, prev, cur);
              WalkCloses(m, cell, open);
              return true;
            }
            WalkGoesOn(m, cell, prev, cur);
          }
        } else {
          WalkPasses(m, cell, prev, cur);
        }
      }
      AnyStep(doc, m, cur);
      AllAnswered(m, cell, cur);
      WalkCloses(m, cell, open);
      r := false;
    }

    lemma WalkStarts(m: Matcher, cell: Cell, start: Node, open: set<Cell>)
      requires m.Combinator? && FiniteChains(doc) && Consistent(open) && cell !in cache.Values
      ensures Consistent(open + {cell}) && Walked(m, cell, start)
    {
      hide FromHere, AnyMatches, FiniteChains;
    }

    /** The elements that one of the selector's groups matches.  A search gets a number of its own, so that it never
        looks at the cells of an earlier one. */
    method Select(groups: seq<Matcher>, elems: seq<Node>, xml: bool, ghost bound: nat) returns (results: seq<Node>)
      requires Valid() && forall i :: 0 <= i < |groups| ==> Registered(table, groups[i], bound)
      modifies this`cache, this`dirruns
      ensures Valid() && results == Selected(doc, groups, elems)
    {
      dirruns := dirruns + 1;
      results := [];
      for i := 0 to |elems|
        invariant Valid() && Consistent({}) && results == Selected(doc, groups, elems[..i])
      {
        var found := MatchGroups(groups, elems[i], xml, bound);
        assert elems[..i + 1][..i] == elems[..i];
        if found {
          results := results + [elems[i]];
        }
      }
      assert elems[..|elems|] == elems;
    }

    method MatchGroups(groups: seq<Matcher>, elem: Node, xml: bool, ghost bound: nat) returns (found: bool)
      requires Valid() && Consistent({}) && forall i :: 0 <= i < |groups| ==> Registered(table, groups[i], bound)
      modifies this`cache
      ensures Valid() && Consistent({}) && (found <==> InGroups(doc, groups, elem))
    {
      var j := 0;
      while j < |groups|
        invariant Valid() && Consistent({}) && 0 <= j <= |groups|
        invariant forall i :: 0 <= i < j ==> !Plain(doc, groups[i], elem)
      {
        found := Match(groups[j], elem, xml, {}, bound);
        if found {
          return;
        }
        j := j + 1;
      }
      found := false;
    }
  }

  ghost predicate InGroups(doc: Document, groups: seq<Matcher>, elem: Node)
    requires FiniteChains(doc)
  {
    exists i :: 0 <= i < |groups| && Plain(doc, groups[i], elem)
  }

  ghost function Selected(doc: Document, groups: seq<Matcher>, elems: seq<Node>): seq<Node>
    requires FiniteChains(doc)
    decreases |elems|
  {
    if elems == [] then []
    else
      var n := |elems| - 1;
      Selected(doc, groups, elems[..n]) + (if InGroups(doc, groups, elems[n]) then [elems[n]] else [])
  }

  function EligibleOn(doc: Document, m: Matcher, nodes: seq<Node>): seq<Node>
    requires m.Combinator?
  {
    if nodes == [] then []
    else (if Eligible(doc, m, nodes[0]) then [nodes[0]] else []) + EligibleOn(doc, m, nodes[1..])
  }

  /** `>` and `+` look at the first eligible node of the chain and at no other. */
  lemma {:induction false} ClosestMatchesIsFirst(doc: Document, m: Matcher, n: Node)
    requires FiniteChains(doc) && m.Combinator?
    ensures var nodes := EligibleOn(doc, m, Chain(doc, m.dir, n));
            ClosestMatches(doc, m, n) <==> nodes != [] && Plain(doc, m.inner, nodes[0])
    decreases doc.height(m.dir, n)
  {
    match doc.next(m.dir, n)
    case None =>
    case Some(e) =>
      assert Chain(doc, m.dir, n)[1..] == Chain(doc, m.dir, e);
      ClosestMatchesIsFirst(doc, m, e);
  }

  /** The chain is the path along `dir` to where it ends. */
  lemma {:induction false} ChainFollows(doc: Document, dir: Dir, n: Node)
    requires FiniteChains(doc)
    ensures var c := Chain(doc, dir, n);
      && (forall k {:trigger c[k]} :: 0 <= k < |c| ==> doc.next(dir, if k == 0 then n else c[k - 1]) == Some(c[k]))
      && doc.next(dir, if c == [] then n else c[|c| - 1]) == None
    decreases doc.height(dir, n)
  {
    match doc.next(dir, n)
    case None =>
    case Some(e) =>
      var c, rest := Chain(doc, dir, n), Chain(doc, dir, e);
      ChainFollows(doc, dir, e);
      assert c == [e] + rest;
      hide Chain;
      forall k | 0 < k < |c| ensures doc.next(dir, c[k - 1]) == Some(c[k]) {
        assert rest[k - 1] == c[k];
      }
  }

  /** What a matcher means: a combinator for the closest node asks the first node on the chain that is an element, or
      any node where the base is a parent, and any other one asks for some such node on the chain. */
  lemma MatchesExactly(doc: Document, m: Matcher, n: Node)
    requires FiniteChains(doc)
    ensures Plain(doc, m, n) <==>
      match m
      case Simple(t) => doc.test(t, n)
      case Every(ms) => forall i :: 0 <= i < |ms| ==> Plain(doc, ms[i], n)
      case Combinator(_, dir, first, base, inner) =>
        var c := Chain(doc, dir, n);
        var asked := (e: Node) => doc.element(e) || (base && dir == ParentNode);
        exists k :: 0 <= k < |c| && asked(c[k]) && Plain(doc, inner, c[k])
                    && (first ==> forall j :: 0 <= j < k ==> !asked(c[j]))
  {
    if m.Combinator? {
      var c := Chain(doc, m.dir, n);
      if m.first {
        ClosestMatchesIsFirst(doc, m, n);
        FirstEligible(doc, m, c);
      } else {
        AnyMatchesIsExists(doc, m, n);
      }
      hide Chain, ClosestMatches, AnyMatches, EligibleOn;
    }
  }

  lemma {:induction false} FirstEligible(doc: Document, m: Matcher, nodes: seq<Node>)
    requires m.Combinator?
    ensures var found := EligibleOn(doc, m, nodes);
      if found == [] then forall j :: 0 <= j < |nodes| ==> !Eligible(doc, m, nodes[j])
      else exists k :: 0 <= k < |nodes| && nodes[k] == found[0] && Eligible(doc, m, nodes[k])
                       && forall j :: 0 <= j < k ==> !Eligible(doc, m, nodes[j])
  {
    if nodes == [] {
    } else if Eligible(doc, m, nodes[0]) {
      assert nodes[0] == EligibleOn(doc, m, nodes)[0];
    } else {
      FirstEligible(doc, m, nodes[1..]);
      var found := EligibleOn(doc, m, nodes[1..]);
      if found != [] {
        var k :| 0 <= k < |nodes[1..]| && nodes[1..][k] == found[0] && Eligible(doc, m, nodes[1..][k])
                 && forall j :: 0 <= j < k ==> !Eligible(doc, m, nodes[1..][j]);
        assert nodes[k + 1] == found[0];
        assert forall j :: 0 < j < k + 1 ==> nodes[j] == nodes[1..][j - 1];
      } else {
        assert forall j :: 0 < j < |nodes| ==> nodes[j] == nodes[1..][j - 1];
      }
    }
  }

  lemma {:induction false} SelectedConcat(doc: Document, groups: seq<Matcher>, a: seq<Node>, b: seq<Node>)
    requires FiniteChains(doc)
    ensures Selected(doc, groups, a + b) == Selected(doc, groups, a) + Selected(doc, groups, b)
    decreases |b|
  {
    hide InGroups;
    if b == [] {
      assert a + b == a;
    } else {
      var n := |b| - 1;
      SelectedConcat(doc, groups, a, b[..n]);
      assert (a + b)[..|a| + n] == a + b[..n];
      var last := if InGroups(doc, groups, b[n]) then [b[n]] else [];
      assert Selected(doc, groups, a + b) == Selected(doc, groups, a + b[..n]) + last;
      assert Selected(doc, groups, b) == Selected(doc, groups, b[..n]) + last;
    }
  }

  /** A search goes through its elements in order and keeps each that some group matches. */
  lemma SelectedExactly(doc: Document, groups: seq<Matcher>, a: seq<Node>, e: Node, b: seq<Node>)
    requires FiniteChains(doc)
    ensures Selected(doc, groups, []) == []
    ensures Selected(doc, groups, a + [e] + b)
         == Selected(doc, groups, a)
            + (if exists i :: 0 <= i < |groups| && Plain(doc, groups[i], e) then [e] else [])
            + Selected(doc, groups, b)
  {
    hide Plain;
    SelectedConcat(doc, groups, a + [e], b);
    SelectedConcat(doc, groups, a, [e]);
    assert [e][..0] == [];
    assert Selected(doc, groups, [e]) == if InGroups(doc, groups, e) then [e] else [];
  }

  /** One step along the chain. */
  lemma AnyStep(doc: Document, m: Matcher, n: Node)
    requires FiniteChains(doc) && m.Combinator?
    ensures doc.next(m.dir, n).None? ==> !AnyMatches(doc, m, n)
    ensures doc.next(m.dir, n).Some? ==>
              var e := doc.next(m.dir, n).value;
              doc.height(m.dir, e) < doc.height(m.dir, n)
              && (AnyMatches(doc, m, n) <==> (Eligible(doc, m, e) && Plain(doc, m.inner, e)) || AnyMatches(doc, m, e))
  {
  }
}
