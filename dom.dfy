/**
 * The part of the page's document tree the panel changes: elements with a
 * text, a parent and an ordered list of children, created one at a time and
 * moved with `appendChild`, which first takes the element out of the child
 * list of the parent it had.
 */
module Dom {
  /** An element, by its creation number. */
  type Node = nat

  /** `cs` without the elements of `gone`, in order. */
  function Detach(cs: seq<Node>, gone: set<Node>): seq<Node> {
    if cs == [] then []
    else (if cs[0] in gone then [] else [cs[0]]) + Detach(cs[1..], gone)
  }

  /** An element is kept exactly when it is listed and not taken out. */
  lemma {:induction false} DetachMembers(cs: seq<Node>, gone: set<Node>, x: Node)
    ensures x in Detach(cs, gone) <==> x in cs && x !in gone
  {
    if cs != [] {
      DetachMembers(cs[1..], gone, x);
      assert x in cs <==> x == cs[0] || x in cs[1..];
    }
  }

  lemma {:induction false} DetachAppend(a: seq<Node>, b: seq<Node>, gone: set<Node>)
    ensures Detach(a + b, gone) == Detach(a, gone) + Detach(b, gone)
  {
    if a != [] {
      assert (a + b)[1..] == a[1..] + b;
      DetachAppend(a[1..], b, gone);
    } else {
      assert a + b == b;
    }
  }

  /** Taking out one more element, after the others have gone. */
  lemma {:induction false} DetachMore(cs: seq<Node>, gone: set<Node>, x: Node)
    ensures Detach(Detach(cs, gone), {x}) == Detach(cs, gone + {x})
  {
    if cs != [] {
      DetachMore(cs[1..], gone, x);
      var head := if cs[0] in gone then [] else [cs[0]];
      DetachAppend(head, Detach(cs[1..], gone), {x});
      assert Detach(head, {x}) == if cs[0] in gone + {x} then [] else [cs[0]] by {
        if head != [] {
          assert head[1..] == [];
        }
      }
    }
  }

  /** Taking out elements that are not listed changes nothing. */
  lemma {:induction false} DetachAbsent(cs: seq<Node>, gone: set<Node>)
    requires forall x :: x in gone ==> x !in cs
    ensures Detach(cs, gone) == cs
  {
    if cs != [] {
      DetachAbsent(cs[1..], gone);
      assert [cs[0]] + cs[1..] == cs;
    }
  }

  /**
   * The two halves of the tree's consistency: every listed child names the
   * lister as its parent, and every element with a parent is listed by it.
   */
  predicate Linked(parent: map<Node, Node>, children: map<Node, seq<Node>>) {
    (forall p, i :: p in children && 0 <= i < |children[p]| ==>
      children[p][i] in parent && parent[children[p][i]] == p) &&
    (forall c :: c in parent ==> parent[c] in children && c in children[parent[c]])
  }

  /** The child lists after `appendChild(p, c)`. */
  function Moved(children: map<Node, seq<Node>>, p: Node, c: Node): (r: map<Node, seq<Node>>)
    requires p in children
    ensures r.Keys == children.Keys
  {
    map n | n in children :: Detach(children[n], {c}) + (if n == p then [c] else [])
  }

  /** Only the element's parent, if it has one, lists it. */
  predicate ListedOnlyByParent(parent: map<Node, Node>, children: map<Node, seq<Node>>, c: Node) {
    forall n :: n in children && c in children[n] ==> c in parent && parent[c] == n
  }

  lemma LinkedListsOnce(parent: map<Node, Node>, children: map<Node, seq<Node>>, c: Node)
    requires Linked(parent, children)
    ensures ListedOnlyByParent(parent, children, c)
  {
    forall n | n in children && c in children[n] ensures c in parent && parent[c] == n {
      var i :| 0 <= i < |children[n]| && children[n][i] == c;
    }
  }

  /** The parents and the child lists together. */
  datatype Tree = Tree(parent: map<Node, Node>, children: map<Node, seq<Node>>)

  /**
   * The updates `p.appendChild(c)` makes: `c` out of the list of the parent
   * it had, onto the end of the list of `p`, and `p` as its parent.
   */
  function Append(t: Tree, p: Node, c: Node): Tree {
    var out :=
      if c in t.parent && t.parent[c] in t.children
      then t.children[t.parent[c] := Detach(t.children[t.parent[c]], {c})]
      else t.children;
    Tree(t.parent[c := p], if p in out then out[p := out[p] + [c]] else out)
  }

  /** In a consistent tree, those updates take the element out of every list and add it to the new parent's. */
  lemma AppendIsMoved(t: Tree, p: Node, c: Node)
    requires ListedOnlyByParent(t.parent, t.children, c) && p in t.children
    ensures Append(t, p, c).children == Moved(t.children, p, c)
  {
    var target := Moved(t.children, p, c);
    var out :=
      if c in t.parent && t.parent[c] in t.children
      then t.children[t.parent[c] := Detach(t.children[t.parent[c]], {c})]
      else t.children;
    forall n | n in t.children ensures out[n] == Detach(t.children[n], {c}) {
      if c !in t.parent || n != t.parent[c] {
        assert c !in t.children[n];
        DetachAbsent(t.children[n], {c});
      }
    }
    var step := out[p := out[p] + [c]];
    assert Append(t, p, c).children == step;
    assert step.Keys == target.Keys;
    forall n | n in step ensures step[n] == target[n] {
      if n == p {
        assert step[n] == out[p] + [c];
      } else {
        assert step[n] == out[n];
      }
    }
  }

  /** Moving an element under another keeps the tree consistent. */
  lemma MovedLinked(parent: map<Node, Node>, children: map<Node, seq<Node>>, p: Node, c: Node)
    requires Linked(parent, children) && p in children
    ensures Linked(parent[c := p], Moved(children, p, c))
  {
    var parent' := parent[c := p];
    var children' := Moved(children, p, c);
    forall n, i | n in children' && 0 <= i < |children'[n]|
      ensures children'[n][i] in parent' && parent'[children'[n][i]] == n
    {
      var kept := Detach(children[n], {c});
      var e := children'[n][i];
      if i < |kept| {
        assert e == kept[i];
        DetachMembers(children[n], {c}, e);
        var j :| 0 <= j < |children[n]| && children[n][j] == e;
      } else {
        assert n == p && e == c;
      }
    }
    forall x | x in parent' ensures parent'[x] in children' && x in children'[parent'[x]] {
      if x != c {
        var m := parent[x];
        DetachMembers(children[m], {c}, x);
        assert x in Detach(children[m], {c});
        assert children'[m] == Detach(children[m], {c}) + (if m == p then [c] else []);
      } else {
        assert children'[p] == Detach(children[p], {c}) + [c];
      }
    }
  }

  /** The document's state as a value. */
  datatype Snapshot = Snapshot(innerText: map<Node, string>, parent: map<Node, Node>, children: map<Node, seq<Node>>, count: nat)

  /** The document: every element's text, parent (when it has one) and children. */
  class Document {
    var innerText: map<Node, string>
    var parent: map<Node, Node>
    var children: map<Node, seq<Node>>
    /** The number of elements created so far: they are `0 .. count - 1`. */
    var count: nat

    /** The tree is consistent and its elements are exactly those created. */
    ghost predicate Valid()
      reads this`parent, this`children, this`count
    {
      (forall n: Node :: n in children <==> n < count) &&
      (forall n :: n in parent ==> n in children) &&
      Linked(parent, children)
    }

    /** Every element created has a text. */
    ghost predicate HasTexts()
      reads this`innerText, this`count
    {
      forall n: Node :: n in innerText <==> n < count
    }

    ghost function Snap(): Snapshot
      reads this
    {
      Snapshot(innerText, parent, children, count)
    }

    constructor ()
      ensures Valid() && HasTexts() && count == 0 && parent == map[]
    {
      innerText := map[];
      parent := map[];
      children := map[];
      count := 0;
    }

    /** `document.createElement`: a new element with no text, no parent and no children. */
    method CreateElement() returns (e: Node)
      requires Valid() && HasTexts()
      modifies this
      ensures Valid() && HasTexts() && e == old(count) && count == old(count) + 1
      ensures innerText == old(innerText)[e := ""] && parent == old(parent) && children == old(children)[e := []]
    {
      e := count;
      innerText := innerText[e := ""];
      children := children[e := []];
      count := count + 1;
      assert Linked(parent, children) by {
        forall x | x in parent ensures parent[x] in children && x in children[parent[x]] {
          assert parent[x] in old(children);
        }
      }
    }

    /** Setting `innerText`. */
    method SetText(n: Node, text: string)
      requires n in innerText
      modifies this`innerText
      ensures innerText == old(innerText)[n := text]
    {
      innerText := innerText[n := text];
    }

    /**
     * `p.appendChild(c)`: `c` leaves the child list of its parent, if it has
     * one, and becomes the last child of `p`.
     */
    method AppendChild(p: Node, c: Node)
      requires Valid() && p in children && c in children
      modifies this`parent, this`children
      ensures Valid() && Tree(parent, children) == Append(Tree(old(parent), old(children)), p, c)
    {
      MovedLinked(parent, children, p, c);
      LinkedListsOnce(parent, children, c);
      AppendIsMoved(Tree(parent, children), p, c);
      if c in parent {
        var q := parent[c];
        children := children[q := Detach(children[q], {c})];
      }
      children := children[p := children[p] + [c]];
      parent := parent[c := p];
    }
  }
}
