/**
 * The Camoufox tab manager of the Python REST server: a table of tabs, the
 * latest tab of every session, and per tab a reference counter with a table
 * from element references ("e1", "e2", ...) to text selectors, filled while
 * an accessibility snapshot is converted into the response tree.
 *
 * The browser and its pages are not modelled: every page call is replaced by
 * a PageOutcome parameter that says whether it succeeded.
 */
module CamoufoxBrowser {
  import opened Wrappers
  import opened Text

  /**
   * A Playwright accessibility node as a dictionary; Null is Python's None.
   * Only the truthiness of "children" is consulted, so a missing list is [].
   */
  datatype AxNode =
    | Null
    | Node(role: Option<string>, name: Option<string>, children: seq<AxNode>)

  /** A node of the response tree; its "children" entry may be absent. */
  datatype OutNode = OutNode(role: string, name: Option<string>, elementRef: Option<string>, children: OutKids)
  datatype OutKids = Absent | Present(items: seq<OutNode>)

  /** What a page call (goto, click, fill, snapshot) did. */
  datatype PageOutcome = Succeeded | Failed(message: string)

  /** The HTTP errors the manager raises. */
  datatype Failure =
    | TabNotFound(tabId: string, available: set<string>)
    | UnknownRef(elementRef: string, availableRefs: Option<set<string>>)
    | ServerError(detail: string)

  function Status(f: Failure): (code: nat)
    ensures code in {400, 404, 500}
  {
    match f
    case TabNotFound(_, _) => 404
    case UnknownRef(_, _) => 400
    case ServerError(_) => 500
  }

  const InteractiveRoles: set<string> := {
    "button", "link", "textbox", "checkbox", "radio",
    "combobox", "menuitem", "tab", "switch", "searchbox",
    "navigation", "menubar", "menu", "menuitemcheckbox",
    "menuitemradio", "option", "progressbar", "scrollbar",
    "slider", "spinbutton", "tablist", "tabpanel",
    "heading", "article", "section", "banner", "complementary",
    "contentinfo", "form", "main", "region", "search",
    "paragraph", "listitem", "img", "figure"
  }

  /** `_is_interactive`: a present role whose lower-cased form is in the table. */
  function IsInteractive(role: Option<string>): bool
  {
    HasRole(role, InteractiveRoles)
  }

  /** A present role whose lower-cased form is in the given table. */
  predicate HasRole(role: Option<string>, roles: set<string>)
  {
    role.Some? && Lower(role.value) in roles
  }

  /** The role test ignores case and rejects a missing role. */
  lemma InteractiveIgnoresCase(role: string)
    ensures IsInteractive(Some(role)) == IsInteractive(Some(Lower(role)))
    ensures !IsInteractive(None)
  {
    LowerIdempotent(role);
  }

  lemma InteractiveExamples()
    ensures IsInteractive(Some("Button")) && IsInteractive(Some("LINK"))
  {
    assert Lower("Button") == "button";
    assert Lower("LINK") == "link";
  }

  /** A node receives an element reference: a truthy name and an interactive role. */
  predicate Qualifies(n: AxNode, roles: set<string>)
  {
    n.Node? && n.name.Some? && n.name.value != "" && HasRole(n.role, roles)
  }

  /** The reference of the i-th qualifying node: "e" followed by i in decimal. */
  function Ref(i: nat): string
  {
    "e" + NatToString(i)
  }

  lemma RefInjective(i: nat, j: nat)
    requires Ref(i) == Ref(j)
    ensures i == j
  {
    assert NatToString(i) == Ref(i)[1..];
    assert NatToString(j) == Ref(j)[1..];
    NatToStringInjective(i, j);
  }

  /** The selector stored for a named element. */
  function Selector(name: string): string
  {
    "text=\"" + name + "\""
  }

  function RoleOf(role: Option<string>): string
  {
    role.UnwrapOr("generic")
  }

  /** The converted node (None for a None node) and the reference counter afterwards. */
  datatype Converted = Converted(tree: Option<OutNode>, counter: nat)
  datatype ConvertedKids = ConvertedKids(trees: seq<OutNode>, counter: nat)

  /** `_convert_snapshot` started with the reference counter at c. */
  function Convert(n: AxNode, c: nat, roles: set<string>): (r: Converted)
    ensures r.tree.Some? <==> n.Node?
    decreases n, 1
  {
    match n
    case Null => Converted(None, c)
    case Node(role, name, kids) =>
      var q := Qualifies(n, roles);
      var c1 := if q then c + 1 else c;
      var ref := if q then Some(Ref(c1)) else None;
      if |kids| > 0 then
        var k := ConvertKids(n, |kids|, c1, roles);
        Converted(Some(OutNode(RoleOf(role), name, ref, Present(k.trees))), k.counter)
      else
        Converted(Some(OutNode(RoleOf(role), name, ref, Absent)), c1)
  }

  /** The list comprehension over the first i children, skipping None. */
  function ConvertKids(n: AxNode, i: nat, c: nat, roles: set<string>): (r: ConvertedKids)
    requires n.Node? && i <= |n.children|
    decreases n, 0, i
  {
    if i == 0 then ConvertedKids([], c)
    else
      var prev := ConvertKids(n, i - 1, c, roles);
      var child := n.children[i - 1];
      if child.Null? then prev
      else
        var r := Convert(child, prev.counter, roles);
        ConvertedKids(prev.trees + [r.tree.value], r.counter)
  }

  /** Reference definition: the names of the qualifying nodes in pre-order. */
  function Names(n: AxNode, roles: set<string>): (r: seq<string>)
    decreases n, 1
  {
    match n
    case Null => []
    case Node(_, name, kids) =>
      (if Qualifies(n, roles) then [name.value] else [])
      + (if |kids| > 0 then NamesKids(n, |kids|, roles) else [])
  }

  function NamesKids(n: AxNode, i: nat, roles: set<string>): (r: seq<string>)
    requires n.Node? && i <= |n.children|
    decreases n, 0, i
  {
    if i == 0 then [] else NamesKids(n, i - 1, roles) + Names(n.children[i - 1], roles)
  }

  /** The references of a response tree, in pre-order. */
  function TreeRefs(t: OutNode): seq<string>
    decreases t, 1
  {
    (if t.elementRef.Some? then [t.elementRef.value] else [])
    + (if t.children.Present? then TreeRefsKids(t, |t.children.items|) else [])
  }

  function TreeRefsKids(t: OutNode, i: nat): seq<string>
    requires t.children.Present? && i <= |t.children.items|
    decreases t, 0, i
  {
    if i == 0 then [] else TreeRefsKids(t, i - 1) + TreeRefs(t.children.items[i - 1])
  }

  /** The references of a list of trees, in order. */
  function TreeRefsList(ts: seq<OutNode>): seq<string>
  {
    if ts == [] then [] else TreeRefsList(ts[..|ts| - 1]) + TreeRefs(ts[|ts| - 1])
  }

  /** The references e(c+1), ..., e(c+k). */
  function RefSeq(c: nat, k: nat): (r: seq<string>)
    ensures |r| == k
  {
    if k == 0 then [] else RefSeq(c, k - 1) + [Ref(c + k)]
  }

  lemma {:induction false} RefSeqAt(c: nat, k: nat, j: nat)
    requires j < k
    ensures RefSeq(c, k)[j] == Ref(c + j + 1)
  {
    if j < k - 1 {
      RefSeqAt(c, k - 1, j);
    }
  }

  /** The table m after entering the selectors of names under e(c+1), e(c+2), ... in order. */
  function Bind(m: map<string, string>, names: seq<string>, c: nat): map<string, string>
  {
    if names == [] then m
    else Bind(m, names[..|names| - 1], c)[Ref(c + |names|) := Selector(names[|names| - 1])]
  }

  /** The references e(lo+1) .. e(hi). */
  function RefsBetween(lo: nat, hi: nat): set<string>
  {
    set i: nat | lo < i <= hi :: Ref(i)
  }

  /** Binding k names adds exactly the keys e(c+1) .. e(c+k). */
  lemma {:induction false} BindKeys(m: map<string, string>, names: seq<string>, c: nat)
    ensures Bind(m, names, c).Keys == m.Keys + RefsBetween(c, c + |names|)
  {
    if names != [] {
      var init := names[..|names| - 1];
      BindKeys(m, init, c);
      assert RefsBetween(c, c + |names|) == RefsBetween(c, c + |init|) + {Ref(c + |names|)};
    }
  }

  /** The j-th bound name's selector sits under e(c+j+1). */
  lemma BindValues(m: map<string, string>, names: seq<string>, c: nat)
    ensures forall k: nat :: c < k <= c + |names| ==>
      Ref(k) in Bind(m, names, c) && Bind(m, names, c)[Ref(k)] == Selector(names[k - c - 1])
  {
    forall k: nat | c < k <= c + |names|
      ensures Ref(k) in Bind(m, names, c) && Bind(m, names, c)[Ref(k)] == Selector(names[k - c - 1])
    {
      BindValueAt(m, names, c, k - c - 1);
    }
  }

  lemma {:induction false} BindValueAt(m: map<string, string>, names: seq<string>, c: nat, j: nat)
    requires j < |names|
    ensures Ref(c + j + 1) in Bind(m, names, c) && Bind(m, names, c)[Ref(c + j + 1)] == Selector(names[j])
    decreases |names|
  {
    var init := names[..|names| - 1];
    var prev := Bind(m, init, c);
    assert Bind(m, names, c) == prev[Ref(c + |names|) := Selector(names[|names| - 1])];
    if j < |init| {
      BindValueAt(m, init, c, j);
      if Ref(c + j + 1) == Ref(c + |names|) {
        RefInjective(c + j + 1, c + |names|);
      }
      assert names[j] == init[j];
    }
  }

  /** Entries outside e(c+1) .. e(c+k) keep their values. */
  lemma {:induction false} BindKeeps(m: map<string, string>, names: seq<string>, c: nat)
    ensures forall k :: k in m && k !in RefsBetween(c, c + |names|) ==>
      k in Bind(m, names, c) && Bind(m, names, c)[k] == m[k]
  {
    BindKeys(m, names, c);
    if names != [] {
      var init := names[..|names| - 1];
      BindKeeps(m, init, c);
      BindKeys(m, init, c);
      assert RefsBetween(c, c + |names|) == RefsBetween(c, c + |init|) + {Ref(c + |names|)};
    }
  }

  /** Binding a + b is binding a, then b numbered after a. */
  lemma {:induction false} BindAppend(m: map<string, string>, a: seq<string>, b: seq<string>, c: nat)
    ensures Bind(m, a + b, c) == Bind(Bind(m, a, c), b, c + |a|)
    decreases |b|
  {
    if b == [] {
      assert a + b == a;
    } else {
      var b0 := b[..|b| - 1];
      assert (a + b)[..|a + b| - 1] == a + b0;
      BindAppend(m, a, b0, c);
    }
  }

  lemma {:induction false} TreeRefsKidsList(t: OutNode, i: nat)
    requires t.children.Present? && i <= |t.children.items|
    ensures TreeRefsKids(t, i) == TreeRefsList(t.children.items[..i])
  {
    if i > 0 {
      TreeRefsKidsList(t, i - 1);
      assert t.children.items[..i][..i - 1] == t.children.items[..i - 1];
    }
  }

  lemma {:induction false} TreeRefsListAppend(ts: seq<OutNode>, t: OutNode)
    ensures TreeRefsList(ts + [t]) == TreeRefsList(ts) + TreeRefs(t)
  {
    assert (ts + [t])[..|ts|] == ts;
  }

  lemma {:induction false} RefSeqAppend(c: nat, k: nat, m: nat)
    ensures RefSeq(c, k + m) == RefSeq(c, k) + RefSeq(c + k, m)
    decreases m
  {
    if m > 0 {
      RefSeqAppend(c, k, m - 1);
    }
  }

  /** Converting raises the counter by the number of qualifying nodes. */
  lemma {:induction false} ConvertCounter(n: AxNode, c: nat, roles: set<string>)
    ensures Convert(n, c, roles).counter == c + |Names(n, roles)|
    decreases n, 1
  {
    if n.Node? {
      var q := Qualifies(n, roles);
      var c1 := if q then c + 1 else c;
      if |n.children| > 0 {
        ConvertKidsCounter(n, |n.children|, c1, roles);
      }
    }
  }

  lemma {:induction false} ConvertKidsCounter(n: AxNode, i: nat, c: nat, roles: set<string>)
    requires n.Node? && i <= |n.children|
    ensures ConvertKids(n, i, c, roles).counter == c + |NamesKids(n, i, roles)|
    decreases n, 0, i
  {
    if i > 0 {
      ConvertKidsCounter(n, i - 1, c, roles);
      ConvertCounter(n.children[i - 1], ConvertKids(n, i - 1, c, roles).counter, roles);
    }
  }

  /** The references in the response tree are e(c+1), e(c+2), ... in pre-order. */
  lemma {:induction false} ConvertRefs(n: AxNode, c: nat, roles: set<string>)
    requires n.Node?
    ensures TreeRefs(Convert(n, c, roles).tree.value) == RefSeq(c, |Names(n, roles)|)
    decreases n, 1
  {
    var q := Qualifies(n, roles);
    var c1 := if q then c + 1 else c;
    var own: seq<string> := if q then [n.name.value] else [];
    var t := Convert(n, c, roles).tree.value;
    assert t.elementRef == (if q then Some(Ref(c1)) else None);
    assert RefSeq(c, |own|) == (if q then [Ref(c1)] else []);
    if |n.children| > 0 {
      var k := |n.children|;
      var kr := ConvertKids(n, k, c1, roles);
      assert t.children == Present(kr.trees);
      ConvertKidsRefs(n, k, c1, roles);
      TreeRefsKidsList(t, |kr.trees|);
      assert kr.trees[..|kr.trees|] == kr.trees;
      assert Names(n, roles) == own + NamesKids(n, k, roles);
      RefSeqAppend(c, |own|, |NamesKids(n, k, roles)|);
    } else {
      assert Names(n, roles) == own;
    }
  }

  lemma {:induction false} ConvertKidsRefs(n: AxNode, i: nat, c: nat, roles: set<string>)
    requires n.Node? && i <= |n.children|
    ensures TreeRefsList(ConvertKids(n, i, c, roles).trees) == RefSeq(c, |NamesKids(n, i, roles)|)
    decreases n, 0, i
  {
    if i > 0 {
      ConvertKidsRefs(n, i - 1, c, roles);
      var child := n.children[i - 1];
      if child.Node? {
        ConvertRefs(child, ConvertKids(n, i - 1, c, roles).counter, roles);
        KidsRefsNode(n, i, c, roles);
      } else {
        KidsRefsNull(n, i, c, roles);
      }
    }
  }

  /** A present child appends its own references right after those of the earlier children. */
  lemma KidsRefsNode(n: AxNode, i: nat, c: nat, roles: set<string>)
    requires n.Node? && 0 < i <= |n.children| && n.children[i - 1].Node?
    requires TreeRefsList(ConvertKids(n, i - 1, c, roles).trees) == RefSeq(c, |NamesKids(n, i - 1, roles)|)
    requires var prev := ConvertKids(n, i - 1, c, roles);
      TreeRefs(Convert(n.children[i - 1], prev.counter, roles).tree.value) == RefSeq(prev.counter, |Names(n.children[i - 1], roles)|)
    ensures TreeRefsList(ConvertKids(n, i, c, roles).trees) == RefSeq(c, |NamesKids(n, i, roles)|)
  {
    var prev := ConvertKids(n, i - 1, c, roles);
    var child := n.children[i - 1];
    var cr := Convert(child, prev.counter, roles);
    KidsNodeStep(n, i - 1, c, roles);
    assert ConvertKids(n, i, c, roles).trees == prev.trees + [cr.tree.value];
    var k := |NamesKids(n, i - 1, roles)|;
    var m := |Names(child, roles)|;
    assert |NamesKids(n, i, roles)| == k + m;
    ConvertKidsCounter(n, i - 1, c, roles);
    RefsCombine(prev.trees, cr.tree.value, c, k, m, prev.counter);
  }

  lemma RefsCombine(ts: seq<OutNode>, t: OutNode, c: nat, k: nat, m: nat, counter: nat)
    requires counter == c + k
    requires TreeRefsList(ts) == RefSeq(c, k) && TreeRefs(t) == RefSeq(counter, m)
    ensures TreeRefsList(ts + [t]) == RefSeq(c, k + m)
  {
    TreeRefsListAppend(ts, t);
    RefSeqAppend(c, k, m);
    assert TreeRefsList(ts + [t]) == RefSeq(c, k) + RefSeq(c + k, m);
  }

  /** An absent child adds no reference. */
  lemma KidsRefsNull(n: AxNode, i: nat, c: nat, roles: set<string>)
    requires n.Node? && 0 < i <= |n.children| && n.children[i - 1].Null?
    requires TreeRefsList(ConvertKids(n, i - 1, c, roles).trees) == RefSeq(c, |NamesKids(n, i - 1, roles)|)
    ensures TreeRefsList(ConvertKids(n, i, c, roles).trees) == RefSeq(c, |NamesKids(n, i, roles)|)
  {
    assert NamesKids(n, i, roles) == NamesKids(n, i - 1, roles) + [];
  }

  /** One step of the comprehension over the children, as the tab method takes it. */
  lemma ConvertKidsStep(n: AxNode, i: nat, c: nat, roles: set<string>, m: map<string, string>)
    requires n.Node? && i < |n.children|
    ensures ConvertKids(n, i, c, roles).counter == c + |NamesKids(n, i, roles)|
    ensures n.children[i].Null? ==>
      ConvertKids(n, i + 1, c, roles) == ConvertKids(n, i, c, roles)
      && NamesKids(n, i + 1, roles) == NamesKids(n, i, roles)
    ensures n.children[i].Node? ==>
      var prev := ConvertKids(n, i, c, roles);
      var r := Convert(n.children[i], prev.counter, roles);
      ConvertKids(n, i + 1, c, roles) == ConvertedKids(prev.trees + [r.tree.value], r.counter)
      && NamesKids(n, i + 1, roles) == NamesKids(n, i, roles) + Names(n.children[i], roles)
      && Bind(Bind(m, NamesKids(n, i, roles), c), Names(n.children[i], roles), prev.counter)
         == Bind(m, NamesKids(n, i + 1, roles), c)
  {
    ConvertKidsCounter(n, i, c, roles);
    if n.children[i].Null? {
      KidsNullStep(n, i, c, roles);
    } else {
      KidsNodeStep(n, i, c, roles);
      KidsBindStep(n, i, c, roles, m);
    }
  }

  lemma KidsNullStep(n: AxNode, i: nat, c: nat, roles: set<string>)
    requires n.Node? && i < |n.children| && n.children[i].Null?
    ensures ConvertKids(n, i + 1, c, roles) == ConvertKids(n, i, c, roles)
    ensures NamesKids(n, i + 1, roles) == NamesKids(n, i, roles)
  {
    assert NamesKids(n, i + 1, roles) == NamesKids(n, i, roles) + [];
  }

  lemma KidsNodeStep(n: AxNode, i: nat, c: nat, roles: set<string>)
    requires n.Node? && i < |n.children| && n.children[i].Node?
    ensures var prev := ConvertKids(n, i, c, roles);
      var r := Convert(n.children[i], prev.counter, roles);
      ConvertKids(n, i + 1, c, roles) == ConvertedKids(prev.trees + [r.tree.value], r.counter)
      && NamesKids(n, i + 1, roles) == NamesKids(n, i, roles) + Names(n.children[i], roles)
  {
  }

  lemma KidsBindStep(n: AxNode, i: nat, c: nat, roles: set<string>, m: map<string, string>)
    requires n.Node? && i < |n.children|
    requires ConvertKids(n, i, c, roles).counter == c + |NamesKids(n, i, roles)|
    requires NamesKids(n, i + 1, roles) == NamesKids(n, i, roles) + Names(n.children[i], roles)
    ensures Bind(Bind(m, NamesKids(n, i, roles), c), Names(n.children[i], roles), ConvertKids(n, i, c, roles).counter)
      == Bind(m, NamesKids(n, i + 1, roles), c)
  {
    BindAppend(m, NamesKids(n, i, roles), Names(n.children[i], roles), c);
  }

  /** A present node converts to its own fields over the converted children. */
  lemma ConvertShape(n: AxNode, c: nat, roles: set<string>)
    requires n.Node?
    ensures var q := Qualifies(n, roles);
      var c1 := if q then c + 1 else c;
      var ref := if q then Some(Ref(c1)) else None;
      var own := if q then [n.name.value] else [];
      if |n.children| > 0 then
        var k := ConvertKids(n, |n.children|, c1, roles);
        Convert(n, c, roles) == Converted(Some(OutNode(RoleOf(n.role), n.name, ref, Present(k.trees))), k.counter)
        && Names(n, roles) == own + NamesKids(n, |n.children|, roles)
      else
        Convert(n, c, roles) == Converted(Some(OutNode(RoleOf(n.role), n.name, ref, Absent)), c1)
        && Names(n, roles) == own
  {
  }

  /** The top node's own fields: role defaults to "generic", a reference iff it qualifies. */
  lemma ConvertNodeFields(n: AxNode, c: nat, roles: set<string>)
    requires n.Node?
    ensures Convert(n, c, roles).tree.value.role == (if n.role.Some? then n.role.value else "generic")
    ensures Convert(n, c, roles).tree.value.name == n.name
    ensures Convert(n, c, roles).tree.value.elementRef == (if Qualifies(n, roles) then Some(Ref(c + 1)) else None)
    ensures Convert(n, c, roles).tree.value.children.Present? <==> |n.children| > 0
  {
  }

  /** A None child is skipped; a present child contributes exactly one converted node. */
  lemma {:induction false} ConvertKidsLength(n: AxNode, i: nat, c: nat, roles: set<string>)
    requires n.Node? && i <= |n.children|
    ensures |ConvertKids(n, i, c, roles).trees| == |set j | 0 <= j < i && n.children[j].Node?|
    decreases i
  {
    if i > 0 {
      ConvertKidsLength(n, i - 1, c, roles);
      var s0 := set j | 0 <= j < i - 1 && n.children[j].Node?;
      var s1 := set j | 0 <= j < i && n.children[j].Node?;
      if n.children[i - 1].Node? {
        assert s1 == s0 + {i - 1};
      } else {
        assert s1 == s0;
      }
    }
  }

  lemma RefsBetweenSplit(a: nat, b: nat, d: nat)
    requires a <= b <= d
    ensures RefsBetween(a, d) == RefsBetween(a, b) + RefsBetween(b, d)
    ensures RefsBetween(a, b) !! RefsBetween(b, d)
  {
    forall x | x in RefsBetween(a, d)
      ensures x in RefsBetween(a, b) + RefsBetween(b, d)
    {
      var i: nat :| a < i <= d && x == Ref(i);
      if i <= b { assert x in RefsBetween(a, b); } else { assert x in RefsBetween(b, d); }
    }
    forall x | x in RefsBetween(a, b) && x in RefsBetween(b, d)
      ensures false
    {
      var i: nat :| a < i <= b && x == Ref(i);
      var j: nat :| b < j <= d && x == Ref(j);
      RefInjective(i, j);
    }
  }

  /**
   * Binding k names into a table that holds exactly e1 .. ec gives a table
   * holding exactly e1 .. e(c+k): the new keys are fresh, the old entries
   * keep their values and each new key holds its name's selector.
   */
  lemma BindTable(m: map<string, string>, names: seq<string>, c: nat)
    requires m.Keys == RefsBetween(0, c)
    ensures Bind(m, names, c).Keys == RefsBetween(0, c + |names|)
    ensures Bind(m, names, c).Keys == m.Keys + RefsBetween(c, c + |names|)
    ensures m.Keys !! RefsBetween(c, c + |names|)
    ensures forall k :: k in m ==> Bind(m, names, c)[k] == m[k]
    ensures forall k: nat :: c < k <= c + |names| ==> Bind(m, names, c)[Ref(k)] == Selector(names[k - c - 1])
  {
    BindKeys(m, names, c);
    BindValues(m, names, c);
    BindKeeps(m, names, c);
    RefsBetweenSplit(0, c, c + |names|);
  }

  /** One browser tab: its URL and its element reference table. */
  class Tab {
    const id: string
    var url: string
    var elementMap: map<string, string>
    var refCounter: nat

    /** The table holds exactly the references handed out since the last navigation. */
    ghost predicate Valid()
      reads this
    {
      elementMap.Keys == RefsBetween(0, refCounter)
    }

    constructor (id: string, url: string)
      ensures Valid()
      ensures this.id == id && this.url == url && elementMap == map[] && refCounter == 0
    {
      this.id := id;
      this.url := url;
      elementMap := map[];
      refCounter := 0;
    }

    /**
     * `_convert_snapshot(node, tab)`: the response tree, with every qualifying
     * node's selector entered under the next reference, in pre-order.
     */
    method ConvertSnapshot(n: AxNode, roles: set<string>) returns (r: Option<OutNode>)
      modifies this
      ensures r == Convert(n, old(refCounter), roles).tree
      ensures refCounter == old(refCounter) + |Names(n, roles)|
      ensures elementMap == Bind(old(elementMap), Names(n, roles), old(refCounter))
      ensures url == old(url)
      decreases n
    {
      if n.Null? {
        return None;
      }
      ghost var c := refCounter;
      ghost var own: seq<string> := [];
      var ref: Option<string> := None;
      if Qualifies(n, roles) {
        refCounter := refCounter + 1;
        ref := Some(Ref(refCounter));
        elementMap := elementMap[Ref(refCounter) := Selector(n.name.value)];
        own := [n.name.value];
        assert own[..0] == [];
      }
      assert elementMap == Bind(old(elementMap), own, c);
      var kidsOut: OutKids := Absent;
      if |n.children| > 0 {
        var kids := n.children;
        var out: seq<OutNode> := [];
        var i := 0;
        ghost var c1 := refCounter;
        ghost var m1 := elementMap;
        while i < |kids|
          invariant 0 <= i <= |kids|
          invariant out == ConvertKids(n, i, c1, roles).trees
          invariant refCounter == ConvertKids(n, i, c1, roles).counter == c1 + |NamesKids(n, i, roles)|
          invariant elementMap == Bind(m1, NamesKids(n, i, roles), c1)
          invariant url == old(url)
        {
          ConvertKidsStep(n, i, c1, roles, m1);
          if kids[i].Node? {
            ghost var before := refCounter;
            ghost var em := elementMap;
            ConvertCounter(kids[i], before, roles);
            var t := ConvertSnapshot(kids[i], roles);
            out := out + [t.value];
            assert refCounter == Convert(kids[i], before, roles).counter;
            assert elementMap == Bind(em, Names(kids[i], roles), before);
          }
          i := i + 1;
        }
        kidsOut := Present(out);
        ghost var rest := NamesKids(n, |kids|, roles);
        assert c1 == c + |own|;
        BindAppend(old(elementMap), own, rest, c);
      }
      ConvertShape(n, c, roles);
      r := Some(OutNode(RoleOf(n.role), n.name, ref, kidsOut));
    }

    /**
     * Converting a snapshot keeps the table valid: the counter rises by the
     * number k of qualifying nodes, exactly the k new keys e(c+1) .. e(c+k)
     * appear, every earlier entry is unchanged, and the table is the old one
     * with the names bound in pre-order (BindTable gives each new key its
     * node's selector).
     */
    method Snapshot(n: AxNode) returns (r: Option<OutNode>)
      requires Valid()
      modifies this
      ensures Valid()
      ensures r == Convert(n, old(refCounter), InteractiveRoles).tree
      ensures refCounter == old(refCounter) + |Names(n, InteractiveRoles)|
      ensures elementMap.Keys == old(elementMap).Keys + RefsBetween(old(refCounter), refCounter)
      ensures old(elementMap).Keys !! RefsBetween(old(refCounter), refCounter)
      ensures forall k :: k in old(elementMap) ==> elementMap[k] == old(elementMap)[k]
      ensures elementMap == Bind(old(elementMap), Names(n, InteractiveRoles), old(refCounter))
      ensures url == old(url)
    {
      ghost var c := refCounter;
      ghost var names := Names(n, InteractiveRoles);
      r := ConvertSnapshot(n, InteractiveRoles);
      assert refCounter == c + |names| && elementMap == Bind(old(elementMap), names, c);
      BindTable(old(elementMap), names, c);
    }

    /** The state change of a successful `navigate`. */
    method Reset(newUrl: string)
      modifies this
      ensures Valid()
      ensures url == newUrl && elementMap == map[] && refCounter == 0
    {
      url := newUrl;
      elementMap := map[];
      refCounter := 0;
    }
  }

  /** The prefix the 500 of `get_accessibility_tree` puts before the error's text. */
  const TreeFailedPrefix: string := "Failed to get accessibility tree: "

  /** The detail of the 500 raised when the page yields no accessibility snapshot. */
  const SnapshotFailed: string := TreeFailedPrefix + "500: Failed to get accessibility snapshot"

  /** `CamofoxBrowserManager`. */
  class Manager {
    /** `self.browser is not None` and `self.camoufox_ctx is not None`. */
    var browserOpen: bool
    var contextOpen: bool
    var tabs: map<string, Tab>
    var sessionTabs: map<string, string>

    ghost predicate Valid()
      reads this, tabs.Values
    {
      browserOpen == contextOpen
      && forall id :: id in tabs ==> tabs[id].Valid() && tabs[id].id == id
    }

    constructor ()
      ensures Valid()
      ensures !browserOpen && !contextOpen && tabs == map[] && sessionTabs == map[]
    {
      browserOpen := false;
      contextOpen := false;
      tabs := map[];
      sessionTabs := map[];
    }

    /** `_get_tab`: the tab, or 404 listing the known ids. */
    function GetTab(tabId: string): (r: Result<Tab, Failure>)
      reads this
      ensures r.Ok? <==> tabId in tabs
      ensures r.Ok? ==> r.value == tabs[tabId]
      ensures r.Err? ==> r.error == TabNotFound(tabId, tabs.Keys) && Status(r.error) == 404
    {
      if tabId in tabs then Ok(tabs[tabId]) else Err(TabNotFound(tabId, tabs.Keys))
    }

    /** `get_active_tab_for_session`. */
    function ActiveTabForSession(sessionKey: string): (r: Option<string>)
      reads this
      ensures r.Some? <==> sessionKey in sessionTabs
      ensures r.Some? ==> r.value == sessionTabs[sessionKey]
    {
      if sessionKey in sessionTabs then Some(sessionTabs[sessionKey]) else None
    }

    /**
     * `create_tab`: start the browser if needed, open a page under tabId and
     * navigate it; on failure nothing is registered.
     */
    method CreateTab(sessionKey: string, url: string, tabId: string, nav: PageOutcome)
      returns (r: Result<Tab, Failure>)
      requires Valid()
      modifies this
      ensures Valid()
      ensures browserOpen && contextOpen
      ensures nav.Failed? ==> (r == Err(ServerError("Navigation failed: " + nav.message))
        && tabs == old(tabs) && sessionTabs == old(sessionTabs))
      ensures nav.Succeeded? ==> (r.Ok? && fresh(r.value)
        && r.value.id == tabId && r.value.url == url
        && r.value.elementMap == map[] && r.value.refCounter == 0
        && tabs == old(tabs)[tabId := r.value]
        && sessionTabs == old(sessionTabs)[sessionKey := tabId])
    {
      if !browserOpen {
        contextOpen := true;
        browserOpen := true;
      }
      if nav.Failed? {
        return Err(ServerError("Navigation failed: " + nav.message));
      }
      var tab := new Tab(tabId, url);
      tabs := tabs[tabId := tab];
      sessionTabs := sessionTabs[sessionKey := tabId];
      r := Ok(tab);
    }

    /**
     * `get_accessibility_tree`: a missing snapshot or a raising snapshot call
     * is a 500; otherwise the snapshot is converted into the tab's reference
     * table. The snapshot call's outcome is `Err(text)` when it raises.
     */
    method AccessibilityTree(tabId: string, snapshot: Result<AxNode, string>) returns (r: Result<OutNode, Failure>)
      requires Valid()
      modifies if tabId in tabs then {tabs[tabId]} else {}
      ensures Valid()
      ensures tabId !in tabs ==> r == Err(TabNotFound(tabId, tabs.Keys))
      ensures tabId in tabs && snapshot.Err? ==> (r.Err? && Status(r.error) == 500
        && r.error.detail == TreeFailedPrefix + snapshot.error
        && unchanged(tabs[tabId]))
      ensures tabId in tabs && snapshot == Ok(Null) ==> (r.Err? && Status(r.error) == 500
        && r.error.detail == SnapshotFailed
        && unchanged(tabs[tabId]))
      ensures tabId in tabs && snapshot.Ok? && snapshot.value.Node? ==> (
        var t := tabs[tabId];
        var n := snapshot.value;
        r == Ok(Convert(n, old(t.refCounter), InteractiveRoles).tree.value)
        && TreeRefs(r.value) == RefSeq(old(t.refCounter), |Names(n, InteractiveRoles)|)
        && t.refCounter == old(t.refCounter) + |Names(n, InteractiveRoles)|
        && t.elementMap == Bind(old(t.elementMap), Names(n, InteractiveRoles), old(t.refCounter))
        && t.url == old(t.url))
    {
      var got := GetTab(tabId);
      if got.Err? {
        return Err(got.error);
      }
      var tab := got.value;
      if snapshot.Err? {
        return Err(ServerError(TreeFailedPrefix + snapshot.error));
      }
      var node := snapshot.value;
      if node.Null? {
        return Err(ServerError(SnapshotFailed));
      }
      ghost var c := tab.refCounter;
      var tree := tab.ConvertSnapshot(node, InteractiveRoles);
      ConvertRefs(node, c, InteractiveRoles);
      BindTable(old(tab.elementMap), Names(node, InteractiveRoles), c);
      r := Ok(tree.value);
    }

    /**
     * `click`: an unknown reference is a 400 before the page is touched. The
     * second result is the selector handed to the page, if any.
     */
    method Click(tabId: string, elementRef: string, outcome: PageOutcome)
      returns (r: Result<(), Failure>, clicked: Option<string>)
      ensures tabId !in tabs ==> r == Err(TabNotFound(tabId, tabs.Keys)) && clicked.None?
      ensures tabId in tabs && elementRef !in tabs[tabId].elementMap ==>
        r == Err(UnknownRef(elementRef, Some(tabs[tabId].elementMap.Keys))) && clicked.None?
      ensures tabId in tabs && elementRef in tabs[tabId].elementMap ==>
        clicked == Some(tabs[tabId].elementMap[elementRef])
        && r == (if outcome.Succeeded? then Ok(()) else Err(ServerError("Click failed: " + outcome.message)))
    {
      var got := GetTab(tabId);
      if got.Err? {
        return Err(got.error), None;
      }
      var tab := got.value;
      if elementRef !in tab.elementMap {
        return Err(UnknownRef(elementRef, Some(tab.elementMap.Keys))), None;
      }
      var selector := tab.elementMap[elementRef];
      clicked := Some(selector);
      if outcome.Failed? {
        r := Err(ServerError("Click failed: " + outcome.message));
      } else {
        r := Ok(());
      }
    }

    /** `type_text`: like `click`, but the 400 does not list the references. */
    method TypeText(tabId: string, elementRef: string, text: string, outcome: PageOutcome)
      returns (r: Result<(), Failure>, filled: Option<(string, string)>)
      ensures tabId !in tabs ==> r == Err(TabNotFound(tabId, tabs.Keys)) && filled.None?
      ensures tabId in tabs && elementRef !in tabs[tabId].elementMap ==>
        r == Err(UnknownRef(elementRef, None)) && filled.None?
      ensures tabId in tabs && elementRef in tabs[tabId].elementMap ==>
        filled == Some((tabs[tabId].elementMap[elementRef], text))
        && r == (if outcome.Succeeded? then Ok(()) else Err(ServerError("Type failed: " + outcome.message)))
    {
      var got := GetTab(tabId);
      if got.Err? {
        return Err(got.error), None;
      }
      var tab := got.value;
      if elementRef !in tab.elementMap {
        return Err(UnknownRef(elementRef, None)), None;
      }
      filled := Some((tab.elementMap[elementRef], text));
      if outcome.Failed? {
        r := Err(ServerError("Type failed: " + outcome.message));
      } else {
        r := Ok(());
      }
    }

    /** `navigate`: on success the URL changes and the reference table restarts. */
    method Navigate(tabId: string, url: string, outcome: PageOutcome) returns (r: Result<(), Failure>)
      requires Valid()
      modifies if tabId in tabs then {tabs[tabId]} else {}
      ensures Valid()
      ensures tabId !in tabs ==> r == Err(TabNotFound(tabId, tabs.Keys))
      ensures tabId in tabs && outcome.Failed? ==>
        r == Err(ServerError("Navigation failed: " + outcome.message)) && unchanged(tabs[tabId])
      ensures tabId in tabs && outcome.Succeeded? ==> (r == Ok(())
        && tabs[tabId].url == url && tabs[tabId].elementMap == map[] && tabs[tabId].refCounter == 0)
    {
      var got := GetTab(tabId);
      if got.Err? {
        return Err(got.error);
      }
      if outcome.Failed? {
        return Err(ServerError("Navigation failed: " + outcome.message));
      }
      got.value.Reset(url);
      r := Ok(());
    }

    /**
     * `screenshot`: the PNG the page yields (`shot`, an error text when the
     * capture raises), before its base64 encoding; the tab is not changed.
     */
    function Screenshot(tabId: string, shot: Result<seq<bv8>, string>): (r: Result<seq<bv8>, Failure>)
      reads this
      ensures tabId !in tabs ==> r == Err(TabNotFound(tabId, tabs.Keys))
      ensures tabId in tabs && shot.Err? ==> r == Err(ServerError("Screenshot failed: " + shot.error)) && Status(r.error) == 500
      ensures tabId in tabs && shot.Ok? ==> r == Ok(shot.value)
    {
      if tabId !in tabs then Err(TabNotFound(tabId, tabs.Keys))
      else if shot.Err? then Err(ServerError("Screenshot failed: " + shot.error))
      else Ok(shot.value)
    }

    /**
     * `cleanup`: forget every tab and close the browser context; page and
     * context close errors are swallowed, session entries are kept.
     */
    method Cleanup()
      requires Valid()
      modifies this
      ensures Valid()
      ensures tabs == map[] && !browserOpen && !contextOpen
      ensures sessionTabs == old(sessionTabs)
    {
      tabs := map[];
      if contextOpen {
        contextOpen := false;
        browserOpen := false;
      }
    }
  }
}
