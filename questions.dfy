/**
 * The panel of suggested questions: the configuration items and list elements
 * registered as slots when the panel is built, the parse of the model's list
 * of contextual questions, their binding to the slots, and the regrouping of
 * the slots' elements under one new list element.
 */
module Panel {
  import opened Wrappers
  import opened Strings
  import opened Prompts
  import opened Layout
  import opened Dom

  /**
   * A configuration item of the starter messages, `{ type, content, promptType }`.
   * Its kind and prompt type are never reassigned; its content is. A missing
   * prompt type is the empty string here.
   */
  class Config {
    const kind: string
    const promptType: string
    var content: string

    constructor (kind: string, promptType: string, content: string)
      ensures this.kind == kind && this.promptType == promptType && this.content == content
    {
      this.kind := kind;
      this.promptType := promptType;
      this.content := content;
    }
  }

  /** An entry of `questionsLIs`: the configuration item and the element showing it. */
  datatype Slot = Slot(config: Config, li: Node)

  function Configs(slots: seq<Slot>): set<Config> {
    set i | 0 <= i < |slots| :: slots[i].config
  }

  function Lis(slots: seq<Slot>): set<Node> {
    set i | 0 <= i < |slots| :: slots[i].li
  }

  function LiSeq(slots: seq<Slot>): (r: seq<Node>)
    ensures |r| == |slots| && forall i :: 0 <= i < |slots| ==> r[i] == slots[i].li
  {
    seq(|slots|, i requires 0 <= i < |slots| => slots[i].li)
  }

  /** Slots `i` and `j` share neither their configuration item nor their element. */
  predicate Apart(slots: seq<Slot>, i: nat, j: nat)
    requires i < |slots| && j < |slots|
  {
    slots[i].config != slots[j].config && slots[i].li != slots[j].li
  }

  /** No two slots share a configuration item or an element. */
  predicate DistinctSlots(slots: seq<Slot>) {
    forall i: nat, j: nat {:trigger Apart(slots, i, j)} :: i < j < |slots| ==> Apart(slots, i, j)
  }

  // ---------------------------------------------------------------------------
  // Registration

  /** An item of an assistant message whose content is a list: its configuration and its element. */
  datatype Item = Item(config: Config, element: Node)

  const QuestionKind: string := "question"

  /** The slots the items of one message contribute: its question items, in order. */
  function Register(items: seq<Item>): seq<Slot> {
    if items == [] then []
    else
      var rest := Register(items[1..]);
      if items[0].config.kind == QuestionKind then [Slot(items[0].config, items[0].element)] + rest else rest
  }

  /** A slot is registered for every question item and for nothing else. */
  lemma {:induction false} RegisterMembers(items: seq<Item>)
    ensures forall s :: s in Register(items) ==> s.config.kind == QuestionKind && Item(s.config, s.li) in items
    ensures forall it :: it in items && it.config.kind == QuestionKind ==> Slot(it.config, it.element) in Register(items)
  {
    if items != [] {
      RegisterMembers(items[1..]);
      var rest := Register(items[1..]);
      var head := if items[0].config.kind == QuestionKind then [Slot(items[0].config, items[0].element)] else [];
      assert Register(items) == head + rest;
      forall it | it in items ensures it == items[0] || it in items[1..] {
        var j :| 0 <= j < |items| && items[j] == it;
        if j > 0 {
          assert items[1..][j - 1] == it;
        }
      }
      forall s | s in rest ensures Item(s.config, s.li) in items {
        assert Item(s.config, s.li) in items[1..];
        var j :| 0 <= j < |items[1..]| && items[1..][j] == Item(s.config, s.li);
        assert items[j + 1] == Item(s.config, s.li);
      }
    }
  }

  /** Registering two runs of items one after the other registers their slots in the same order. */
  lemma {:induction false} RegisterAppend(a: seq<Item>, b: seq<Item>)
    ensures Register(a + b) == Register(a) + Register(b)
  {
    if a == [] {
      assert a + b == b;
    } else {
      assert (a + b)[1..] == a[1..] + b;
      RegisterAppend(a[1..], b);
    }
  }

  /**
   * The panel build's nested loop: for each assistant message whose content is
   * a list, each question item is pushed onto `questionsLIs` as its
   * configuration and element; `info` items are not registered.
   */
  method RegisterSlots(questionsLIs: seq<Slot>, messages: seq<seq<Item>>) returns (r: seq<Slot>)
    ensures r == questionsLIs + RegisterAll(messages)
  {
    r := questionsLIs;
    for m := 0 to |messages|
      invariant r == questionsLIs + RegisterAll(messages[..m])
    {
      var items := messages[m];
      ghost var before := r;
      for j := 0 to |items|
        invariant r == before + Register(items[..j])
      {
        if items[j].config.kind == QuestionKind {
          r := r + [Slot(items[j].config, items[j].element)];
        }
        RegisterAppend(items[..j], [items[j]]);
        assert items[..j + 1] == items[..j] + [items[j]];
      }
      assert items[..|items|] == items;
      RegisterAllSnoc(messages[..m], items);
      assert messages[..m + 1] == messages[..m] + [items];
    }
    assert messages[..|messages|] == messages;
  }

  /** The slots of all messages, message after message. */
  function RegisterAll(messages: seq<seq<Item>>): seq<Slot> {
    if messages == [] then [] else Register(messages[0]) + RegisterAll(messages[1..])
  }

  lemma {:induction false} RegisterAllSnoc(messages: seq<seq<Item>>, items: seq<Item>)
    ensures RegisterAll(messages + [items]) == RegisterAll(messages) + Register(items)
  {
    if messages == [] {
      assert messages + [items] == [items];
    } else {
      assert (messages + [items])[1..] == messages[1..] + [items];
      RegisterAllSnoc(messages[1..], items);
    }
  }

  // ---------------------------------------------------------------------------
  // Parsing

  /**
   * The delimiter the binding step splits on: the three characters U+00E2,
   * U+20AC, U+00A2 (a bullet's UTF-8 bytes read as Windows-1252), not the
   * bullet itself.
   */
  const Mojibake: string := "\U{E2}\U{20AC}\U{A2}"

  function TrimAll(xs: seq<string>): (r: seq<string>)
    ensures |r| == |xs| && forall i :: 0 <= i < |xs| ==> r[i] == Trim(xs[i])
  {
    seq(|xs|, i requires 0 <= i < |xs| => Trim(xs[i]))
  }

  /** `questions.split(delimiter + \s*).filter(Boolean)`, each piece trimmed. */
  function ParseQuestions(text: string): seq<string> {
    TrimAll(NonEmpty(BulletSplit(text, Mojibake)))
  }

  /**
   * An answer without the delimiter is one question, or none when it is
   * empty: a list marked with real bullets binds only its whole text.
   */
  lemma ParseWithoutDelimiter(text: string)
    requires !Contains(text, Mojibake)
    ensures ParseQuestions(text) == if text == "" then [] else [Trim(text)]
  {
    BulletSplitAbsent(text, Mojibake);
    if text == "" {
      assert NonEmpty([text]) == [];
    } else {
      assert text in NonEmpty([text]);
      assert NonEmpty([text]) == [text];
    }
  }

  // ---------------------------------------------------------------------------
  // Binding

  /** The number of slots before `k` whose configuration asks for an exact contextual question. */
  function ExactBefore(slots: seq<Slot>, k: nat): (n: nat)
    requires k <= |slots|
    ensures n <= k
  {
    if k == 0 then 0
    else ExactBefore(slots, k - 1) + (if slots[k - 1].config.promptType == DocumentContextualQuestionExactly then 1 else 0)
  }

  /** Slot `k` takes a question: it is an exact-question slot and the list reaches its rank. */
  predicate Binds(slots: seq<Slot>, qs: seq<string>, k: nat)
    requires k < |slots|
  {
    slots[k].config.promptType == DocumentContextualQuestionExactly && ExactBefore(slots, k) < |qs|
  }

  /** What each slot is given: the question of its rank when it binds, else nothing. */
  ghost function Plan(slots: seq<Slot>, qs: seq<string>): (r: seq<Option<string>>)
    ensures |r| == |slots|
    ensures forall k {:trigger r[k]} :: 0 <= k < |slots| ==>
      r[k] == if Binds(slots, qs, k) then Some(qs[ExactBefore(slots, k)]) else None
  {
    seq(|slots|, k requires 0 <= k < |slots| => if Binds(slots, qs, k) then Some(qs[ExactBefore(slots, k)]) else None)
  }

  /**
   * The binding loop of `transferContextualQuestions`: the `n`-th slot of the
   * exact-question type gets the `n`-th question as its configuration's
   * content and its element's text, as the plan says; every other slot, and
   * an exact-question slot beyond the list, keeps what it had.
   */
  method BindQuestions(dom: Document, slots: seq<Slot>, qs: seq<string>)
    requires DistinctSlots(slots)
    requires forall k :: 0 <= k < |slots| ==> slots[k].li in dom.innerText
    modifies Configs(slots)`content, dom`innerText
    ensures var plan := Plan(slots, qs);
      forall k {:trigger plan[k]} :: 0 <= k < |slots| ==>
        slots[k].config.content == if plan[k].Some? then plan[k].value else old(slots[k].config.content)
    ensures dom.innerText == Assigned(old(dom.innerText), slots, Plan(slots, qs), |slots|)
  {
    ghost var plan := Plan(slots, qs);
    ghost var texts := dom.innerText;
    var index := 0;
    for i := 0 to |slots|
      invariant index == ExactBefore(slots, i)
      invariant forall k {:trigger plan[k]} :: 0 <= k < i ==>
        slots[k].config.content == (if plan[k].Some? then plan[k].value else old(slots[k].config.content))
      invariant forall k :: i <= k < |slots| ==> slots[k].config.content == old(slots[k].config.content)
      invariant dom.innerText == texts == Assigned(old(dom.innerText), slots, plan, i)
    {
      assert plan[i] == if slots[i].config.promptType == DocumentContextualQuestionExactly && index < |qs| then Some(qs[index]) else None;
      if slots[i].config.promptType == DocumentContextualQuestionExactly {
        if index < |qs| {
          forall k | 0 <= k < |slots| && k != i ensures slots[k].config != slots[i].config {
            if k < i {
              assert Apart(slots, k, i);
            } else {
              assert Apart(slots, i, k);
            }
          }
          slots[i].config.content := qs[index];
          dom.SetText(slots[i].li, qs[index]);
          texts := texts[slots[i].li := qs[index]];
        }
        index := index + 1;
      }
    }
  }

  /** The element texts once the first `i` slots have been given what the plan says. */
  ghost function Assigned(texts: map<Node, string>, slots: seq<Slot>, plan: seq<Option<string>>, i: nat): (r: map<Node, string>)
    requires i <= |slots| == |plan|
    ensures (forall k :: 0 <= k < |slots| ==> slots[k].li in texts) ==> r.Keys == texts.Keys
  {
    if i == 0 then texts
    else
      var t := Assigned(texts, slots, plan, i - 1);
      if plan[i - 1].Some? then t[slots[i - 1].li := plan[i - 1].value] else t
  }

  /** Each slot's element has its planned text once its turn has come, and its old text before. */
  lemma {:induction false} AssignedSlots(texts: map<Node, string>, slots: seq<Slot>, plan: seq<Option<string>>, i: nat)
    requires i <= |slots| == |plan| && DistinctSlots(slots)
    requires forall k :: 0 <= k < |slots| ==> slots[k].li in texts
    ensures forall k :: 0 <= k < |slots| ==>
      Assigned(texts, slots, plan, i)[slots[k].li] == if k < i && plan[k].Some? then plan[k].value else texts[slots[k].li]
  {
    if i > 0 {
      AssignedSlots(texts, slots, plan, i - 1);
      forall k | 0 <= k < |slots| && k != i - 1 ensures slots[k].li != slots[i - 1].li {
        if k < i - 1 {
          assert Apart(slots, k, i - 1);
        } else {
          assert Apart(slots, i - 1, k);
        }
      }
    }
  }

  /** An element that is no slot's keeps its text. */
  lemma {:induction false} AssignedOthers(texts: map<Node, string>, slots: seq<Slot>, plan: seq<Option<string>>, i: nat)
    requires i <= |slots| == |plan|
    requires forall k :: 0 <= k < |slots| ==> slots[k].li in texts
    ensures forall n :: n in texts && n !in Lis(slots) ==> Assigned(texts, slots, plan, i)[n] == texts[n]
  {
    if i > 0 {
      AssignedOthers(texts, slots, plan, i - 1);
      assert slots[i - 1].li in Lis(slots);
    }
  }

  /**
   * The index advances once per exact-question slot: two such slots have
   * different ranks, so no question is bound twice, and the bound slots are
   * the first ones of the type.
   */
  lemma {:induction false} RanksIncrease(slots: seq<Slot>, j: nat, k: nat)
    requires j < k < |slots| && slots[j].config.promptType == DocumentContextualQuestionExactly
    ensures ExactBefore(slots, j) < ExactBefore(slots, k)
    decreases k - j
  {
    if j + 1 < k {
      RanksIncrease(slots, j, k - 1);
      assert ExactBefore(slots, k - 1) <= ExactBefore(slots, k);
    }
  }

  // ---------------------------------------------------------------------------
  // Regrouping

  /** Taking one more element out of a list that has some appended, none of which is that element. */
  lemma DetachOneMore(kids: seq<Node>, gone: set<Node>, moved: seq<Node>, li: Node)
    requires li !in moved
    ensures Detach(Detach(kids, gone) + moved, {li}) == Detach(kids, gone + {li}) + moved
  {
    DetachAppend(Detach(kids, gone), moved, {li});
    DetachMore(kids, gone, li);
    DetachAbsent(moved, {li});
  }

  function Elems(xs: seq<Node>): set<Node> {
    set x | x in xs
  }

  predicate NoRepeats(xs: seq<Node>) {
    forall i, j :: 0 <= i < j < |xs| ==> xs[i] != xs[j]
  }

  /** A sequence without repeats is its first part, without repeats, and a last element not in it. */
  lemma Snoc(xs: seq<Node>)
    requires xs != [] && NoRepeats(xs)
    ensures var init, x := xs[..|xs| - 1], xs[|xs| - 1];
      xs == init + [x] && NoRepeats(init) && x !in init && Elems(xs) == Elems(init) + {x}
  {
    var init, x := xs[..|xs| - 1], xs[|xs| - 1];
    assert xs == init + [x];
    forall j | 0 <= j < |init| ensures init[j] != x {
      assert init[j] == xs[j];
    }
  }

  /** The tree after `list.appendChild(x)` for each `x` of `xs` in turn. */
  ghost function Gathered(t: Tree, list: Node, xs: seq<Node>): Tree
    decreases |xs|
  {
    if xs == [] then t else Append(Gathered(t, list, xs[..|xs| - 1]), list, xs[|xs| - 1])
  }

  /** In a consistent tree, the appends keep it consistent and keep its elements. */
  lemma {:induction false} GatheredLinked(t: Tree, list: Node, xs: seq<Node>)
    requires Linked(t.parent, t.children) && list in t.children
    ensures var g := Gathered(t, list, xs);
      Linked(g.parent, g.children) && g.children.Keys == t.children.Keys
    decreases |xs|
  {
    if xs != [] {
      var init := xs[..|xs| - 1];
      var x := xs[|xs| - 1];
      GatheredLinked(t, list, init);
      var g := Gathered(t, list, init);
      LinkedListsOnce(g.parent, g.children, x);
      AppendIsMoved(g, list, x);
      MovedLinked(g.parent, g.children, list, x);
    }
  }

  /** In a consistent tree, any further append moves the element as `Moved` says. */
  lemma GatheredThenMoved(t: Tree, list: Node, xs: seq<Node>, p: Node, c: Node)
    requires Linked(t.parent, t.children) && list in t.children && p in t.children
    ensures var g := Gathered(t, list, xs);
      p in g.children && Append(g, p, c).children == Moved(g.children, p, c)
  {
    GatheredLinked(t, list, xs);
    var g := Gathered(t, list, xs);
    LinkedListsOnce(g.parent, g.children, c);
    AppendIsMoved(g, p, c);
  }

  /** The child lists after moving each of `xs` in turn to the end of the list of `list`. */
  ghost function MovedAll(children: map<Node, seq<Node>>, list: Node, xs: seq<Node>): (r: map<Node, seq<Node>>)
    requires list in children
    ensures r.Keys == children.Keys
    decreases |xs|
  {
    if xs == [] then children else Moved(MovedAll(children, list, xs[..|xs| - 1]), list, xs[|xs| - 1])
  }

  /** In a consistent tree, the appends move each element as `Moved` says. */
  lemma {:induction false} GatheredIsMovedAll(t: Tree, list: Node, xs: seq<Node>)
    requires Linked(t.parent, t.children) && list in t.children
    ensures Gathered(t, list, xs).children == MovedAll(t.children, list, xs)
    decreases |xs|
  {
    if xs != [] {
      GatheredIsMovedAll(t, list, xs[..|xs| - 1]);
      GatheredThenMoved(t, list, xs[..|xs| - 1], list, xs[|xs| - 1]);
    }
  }

  /**
   * Moving distinct elements one by one takes each out of every other list
   * and leaves them, in order, at the end of the new one.
   */
  lemma {:induction false} MovedAllLists(children: map<Node, seq<Node>>, list: Node, xs: seq<Node>)
    requires list in children && NoRepeats(xs)
    ensures forall n :: n in children ==>
      MovedAll(children, list, xs)[n] == Detach(children[n], Elems(xs)) + (if n == list then xs else [])
    decreases |xs|
  {
    if xs == [] {
      assert Elems(xs) == {};
      forall n | n in children ensures children[n] == Detach(children[n], {}) {
        DetachAbsent(children[n], {});
      }
    } else {
      var init := xs[..|xs| - 1];
      var x := xs[|xs| - 1];
      Snoc(xs);
      MovedAllLists(children, list, init);
      var m := MovedAll(children, list, init);
      assert MovedAll(children, list, xs) == Moved(m, list, x);
      forall n | n in children
        ensures Moved(m, list, x)[n] == Detach(children[n], Elems(xs)) + (if n == list then xs else [])
      {
        MovedOneMore(children, m, list, init, x, n);
      }
    }
  }

  /** One more move, at one list. */
  lemma MovedOneMore(children: map<Node, seq<Node>>, m: map<Node, seq<Node>>, list: Node, init: seq<Node>, x: Node, n: Node)
    requires list in m && n in m && n in children && x !in init
    requires m[n] == Detach(children[n], Elems(init)) + (if n == list then init else [])
    ensures Moved(m, list, x)[n] == Detach(children[n], Elems(init + [x])) + (if n == list then init + [x] else [])
  {
    var before := if n == list then init else [];
    DetachOneMore(children[n], Elems(init), before, x);
    var d := Detach(children[n], Elems(init + [x]));
    assert Elems(init + [x]) == Elems(init) + {x};
    if n == list {
      assert Moved(m, list, x)[n] == Detach(m[n], {x}) + [x];
      assert d + init + [x] == d + (init + [x]);
    } else {
      assert Moved(m, list, x)[n] == Detach(m[n], {x}) + [];
    }
  }

  /** After the same appends, each appended element has the list as its parent and the others keep theirs. */
  lemma {:induction false} GatheredParents(t: Tree, list: Node, xs: seq<Node>)
    ensures var g := Gathered(t, list, xs);
      g.parent.Keys == t.parent.Keys + Elems(xs) &&
      forall n :: n in g.parent ==> g.parent[n] == if n in Elems(xs) then list else t.parent[n]
    decreases |xs|
  {
    if xs != [] {
      var init := xs[..|xs| - 1];
      GatheredParents(t, list, init);
      assert Elems(xs) == Elems(init) + {xs[|xs| - 1]} by {
        assert xs == init + [xs[|xs| - 1]];
      }
    }
  }

  /** The loop of the last step: each slot's element, in slot order, becomes the last child of `list`. */
  method AppendSlots(dom: Document, list: Node, slots: seq<Slot>)
    requires dom.Valid() && list in dom.children
    requires forall k :: 0 <= k < |slots| ==> slots[k].li in dom.children
    modifies dom`parent, dom`children
    ensures dom.Valid()
    ensures Tree(dom.parent, dom.children) == Gathered(Tree(old(dom.parent), old(dom.children)), list, LiSeq(slots))
  {
    ghost var ls := LiSeq(slots);
    for i := 0 to |slots|
      invariant dom.Valid()
      invariant Tree(dom.parent, dom.children) == Gathered(Tree(old(dom.parent), old(dom.children)), list, ls[..i])
    {
      dom.AppendChild(list, slots[i].li);
      assert ls[..i + 1][..i] == ls[..i];
    }
    assert ls[..|slots|] == ls;
  }

  /**
   * The document after the regrouping: when the first slot's element has a
   * parent, a new list element with an empty text and the regrouped tree;
   * otherwise the document as it was.
   */
  ghost function AfterRegroup(s: Snapshot, slots: seq<Slot>): Snapshot
    requires |slots| > 0
  {
    if slots[0].li in s.parent then
      var r := Regrouped(s.parent, s.children, slots, s.count);
      Snapshot(s.innerText[s.count := ""], r.parent, r.children, s.count + 1)
    else s
  }

  /**
   * The last step of `transferContextualQuestions`: when the first slot's
   * element has a parent, a new list element is created, every slot's
   * element is appended to it in slot order (which takes each out of the
   * child list it was in), and the list is appended to that parent. Without
   * a parent nothing changes.
   */
  method Regroup(dom: Document, slots: seq<Slot>) returns (ul: Option<Node>)
    requires dom.Valid() && dom.HasTexts() && |slots| > 0 && DistinctSlots(slots)
    requires forall k :: 0 <= k < |slots| ==> slots[k].li in dom.children
    modifies dom
    ensures dom.Valid() && dom.HasTexts()
    ensures ul == if slots[0].li in old(dom.parent) then Some(old(dom.count)) else None
    ensures dom.Snap() == AfterRegroup(old(dom.Snap()), slots)
  {
    ul := None;
    ghost var s0 := dom.Snap();
    if slots[0].li in dom.parent {
      var parentElement := dom.parent[slots[0].li];
      var list := dom.CreateElement();
      ul := Some(list);
      ghost var start := Tree(dom.parent, dom.children);
      assert start == Tree(s0.parent, s0.children[list := []]);
      AppendSlots(dom, list, slots);
      ghost var gathered := Tree(dom.parent, dom.children);
      assert gathered == Gathered(start, list, LiSeq(slots));
      dom.AppendChild(parentElement, list);
      assert Tree(dom.parent, dom.children) == Append(gathered, parentElement, list);
      assert dom.innerText == s0.innerText[list := ""] && dom.count == s0.count + 1;
    }
  }

  /** A new element with no children keeps a consistent tree consistent. */
  lemma FreshListLinked(parent: map<Node, Node>, children: map<Node, seq<Node>>, list: Node)
    requires Linked(parent, children) && (forall n :: n in parent ==> n in children) && list !in children
    ensures Linked(parent, children[list := []])
  {
    var children' := children[list := []];
    forall p, i | p in children' && 0 <= i < |children'[p]|
      ensures children'[p][i] in parent && parent[children'[p][i]] == p
    {
      assert p != list && children'[p][i] == children[p][i];
    }
  }

  /** An element outside a consistent tree is listed nowhere. */
  lemma NotListed(parent: map<Node, Node>, children: map<Node, seq<Node>>, list: Node)
    requires Linked(parent, children) && (forall n :: n in parent ==> n in children) && list !in children
    ensures forall n :: n in children ==> list !in children[n]
  {
    forall n, i | n in children && 0 <= i < |children[n]| ensures children[n][i] != list {
      assert children[n][i] in parent;
    }
  }

  /** Taking out an element a list never had, after others, changes nothing. */
  lemma NeverListed(cs: seq<Node>, gone: set<Node>, list: Node)
    requires list !in cs
    ensures Detach(Detach(cs, gone), {list}) == Detach(cs, gone)
  {
    DetachMembers(cs, gone, list);
    DetachAbsent(Detach(cs, gone), {list});
  }

  /** The slots' elements, as a sequence, hold the same elements as the set of them, without repeats. */
  lemma LiSeqElems(slots: seq<Slot>)
    requires DistinctSlots(slots)
    ensures Elems(LiSeq(slots)) == Lis(slots) && NoRepeats(LiSeq(slots))
  {
    var xs := LiSeq(slots);
    forall x | x in Lis(slots) ensures x in Elems(xs) {
      var k :| 0 <= k < |slots| && slots[k].li == x;
      assert xs[k] == x;
    }
    forall i, j | 0 <= i < j < |xs| ensures xs[i] != xs[j] {
      assert Apart(slots, i, j);
    }
  }

  /** The tree the last step leaves, from the document's parents and child lists. */
  ghost function Regrouped(parent: map<Node, Node>, children: map<Node, seq<Node>>, slots: seq<Slot>, list: Node): Tree
    requires |slots| > 0 && slots[0].li in parent
  {
    Append(Gathered(Tree(parent, children[list := []]), list, LiSeq(slots)), parent[slots[0].li], list)
  }

  /** Gathering the elements into a new, empty list: it holds them, and every other list lost them. */
  lemma GatheredIntoFresh(children: map<Node, seq<Node>>, list: Node, xs: seq<Node>, gone: set<Node>)
    requires list !in children && NoRepeats(xs) && Elems(xs) == gone
    ensures var m := MovedAll(children[list := []], list, xs);
      m.Keys == children.Keys + {list} && m[list] == xs &&
      forall n :: n in children ==> m[n] == Detach(children[n], gone)
  {
    var start := children[list := []];
    MovedAllLists(start, list, xs);
    assert Detach(start[list], gone) == [];
    forall n | n in children ensures MovedAll(start, list, xs)[n] == Detach(children[n], gone) {
      assert start[n] == children[n];
    }
  }

  /** Then moving the list, which no other list holds, under an element of the document. */
  lemma FreshListMoved(children: map<Node, seq<Node>>, m: map<Node, seq<Node>>, list: Node, xs: seq<Node>, gone: set<Node>, pe: Node)
    requires m.Keys == children.Keys + {list} && m[list] == xs && list !in xs
    requires forall n :: n in children ==> m[n] == Detach(children[n], gone) && list !in children[n]
    requires pe in children && list !in children
    ensures var r := Moved(m, pe, list);
      r[list] == xs && forall n :: n in children ==> r[n] == Detach(children[n], gone) + (if n == pe then [list] else [])
  {
    DetachAbsent(xs, {list});
    forall n | n in children
      ensures Moved(m, pe, list)[n] == Detach(children[n], gone) + (if n == pe then [list] else [])
    {
      NeverListed(children[n], gone, list);
      assert Moved(m, pe, list)[n] == Detach(m[n], {list}) + (if n == pe then [list] else []);
    }
  }

  /**
   * What the last step leaves in the child lists of a consistent document:
   * the new list holds the slots' elements in slot order and is the last
   * child of the first slot's former parent; every other list lost the
   * slots' elements and nothing else.
   */
  lemma RegroupedLists(parent: map<Node, Node>, children: map<Node, seq<Node>>, slots: seq<Slot>, list: Node)
    requires Linked(parent, children) && (forall n :: n in parent ==> n in children)
    requires list !in children && DistinctSlots(slots) && |slots| > 0 && slots[0].li in parent && list !in Lis(slots)
    ensures var r := Regrouped(parent, children, slots, list);
      r.children.Keys == children.Keys + {list} && r.children[list] == LiSeq(slots) &&
      forall n :: n in children ==>
        r.children[n] == Detach(children[n], Lis(slots)) + (if n == parent[slots[0].li] then [list] else [])
  {
    var pe := parent[slots[0].li];
    var xs := LiSeq(slots);
    var t := Tree(parent, children[list := []]);
    LiSeqElems(slots);
    FreshListLinked(parent, children, list);
    NotListed(parent, children, list);
    GatheredIsMovedAll(t, list, xs);
    GatheredThenMoved(t, list, xs, pe, list);
    GatheredIntoFresh(children, list, xs, Lis(slots));
    FreshListMoved(children, MovedAll(t.children, list, xs), list, xs, Lis(slots), pe);
  }

  /**
   * What the last step leaves in the parents: the slots' elements have the
   * new list as parent, the list has the first slot's former parent, and
   * every other element keeps its own.
   */
  lemma RegroupedParents(parent: map<Node, Node>, children: map<Node, seq<Node>>, slots: seq<Slot>, list: Node)
    requires DistinctSlots(slots) && |slots| > 0 && slots[0].li in parent && list !in Lis(slots)
    ensures var r := Regrouped(parent, children, slots, list);
      r.parent.Keys == parent.Keys + Lis(slots) + {list} && r.parent[list] == parent[slots[0].li] &&
      (forall k :: 0 <= k < |slots| ==> r.parent[slots[k].li] == list) &&
      (forall n :: n in parent && n !in Lis(slots) && n != list ==> r.parent[n] == parent[n])
  {
    LiSeqElems(slots);
    GatheredParents(Tree(parent, children[list := []]), list, LiSeq(slots));
    forall k | 0 <= k < |slots| ensures slots[k].li in Lis(slots) {
    }
  }

  // ---------------------------------------------------------------------------
  // The whole transfer

  /** What the transfer needs of the page: a consistent document holding every slot's element, and distinct slots. */
  ghost predicate Ready(dom: Document, slots: seq<Slot>)
    reads dom
  {
    dom.Valid() && dom.HasTexts() && |slots| > 0 && DistinctSlots(slots) &&
    forall k :: 0 <= k < |slots| ==> slots[k].li in dom.children
  }

  /**
   * The document after binding the questions `qs` and regrouping: the texts
   * the plan assigns and, when the first slot's element has a parent, the
   * new list element with an empty text and the regrouped tree.
   */
  ghost function AfterTransfer(s: Snapshot, slots: seq<Slot>, qs: seq<string>): Snapshot
    requires |slots| > 0
  {
    AfterRegroup(s.(innerText := Assigned(s.innerText, slots, Plan(slots, qs), |slots|)), slots)
  }
}
