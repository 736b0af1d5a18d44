/** The page emitter, `recurse_classes` (main.py:76-139): a post-order walk of
    the template class tree that writes one front-matter page per accepted class
    and one per instance of that class. The filesystem is abstracted: a layout
    file `_layouts/N.html` exists when `N` is in `layouts`, and writing a file
    appends a `Write` record to the output. */
module Pages {
  import opened Text
  import opened Values
  import opened Titles

  /** A template class: its Python name, its instances in the store's order and
      its direct subclasses (`__subclasses__()`). */
  datatype ClassNode = ClassNode(name: string, instances: seq<Entry>, children: seq<ClassNode>)

  /** What the walk reads besides the tree: the `--templates` patterns (empty
      when the flag is absent), the existing layout names, the title rules and
      the reward instance store. */
  datatype Config = Config(
    templates: seq<string>,
    layouts: set<string>,
    table: map<string, Strategy>,
    rewards: map<string, seq<Field>>)

  const Flavor: string := "wotc"

  /** The front matter written into a page file. */
  datatype FrontMatter =
    | ClassPage(title: string, flavor: string, uclass: seq<string>, layout: string, permalink: string)
    | InstancePage(title: string, flavor: string, uclass: seq<string>, dataname: string,
                   layout: string, permalink: string)

  /** One opened file. The file is opened before its text is formatted, so a
      failure while formatting leaves it empty (`page == None`). */
  datatype Write = Write(path: string, owner: string, page: Option<FrontMatter>)

  /** Why a walk stops: no class layout was found, so `layout` is unbound when
      the class page is formatted; or an instance's title rule raised. */
  datatype PageError =
    | LayoutUnbound(classname: string)
    | TitleFailed(classname: string, dataname: string, error: TitleError)

  datatype Outcome = Outcome(writes: seq<Write>, failure: Option<PageError>)

  function ClassPath(classname: string): string {
    "_wotc/" + classname + ".html"
  }

  function InstancePath(classname: string, dataname: string): string {
    "_wotc/" + classname + "_" + dataname + ".html"
  }

  function ClassPermalink(classname: string): string {
    "/wotc/" + classname
  }

  function InstancePermalink(classname: string, dataname: string): string {
    "/wotc/" + classname + "/" + dataname
  }

  // ---------------------------------------------------------------------------
  // The class filter (main.py:82-90)

  /** One `--templates` argument accepts a (case-folded) class name when it folds
      to that name, or when `x2{arg}template` matches the start of the name,
      ignoring case. The argument is taken as literal text. */
  predicate PatternAccepts(arg: string, classname: string) {
    Lower(arg) == classname || IsPrefix(Lower("x2" + arg + "template"), classname)
  }

  /** The `for ... break` scan over the arguments. */
  function MatchesAny(templates: seq<string>, classname: string): bool {
    templates != [] && (PatternAccepts(templates[0], classname) || MatchesAny(templates[1..], classname))
  }

  /** Without `--templates` every class is emitted; otherwise only classes that
      some argument accepts. */
  function Accepts(templates: seq<string>, classname: string): bool {
    templates == [] || MatchesAny(templates, classname)
  }

  /** The argument scan succeeds exactly when some argument accepts the name. */
  lemma {:induction false} MatchesAnyIff(templates: seq<string>, classname: string)
    ensures MatchesAny(templates, classname) <==>
      exists i :: 0 <= i < |templates| && PatternAccepts(templates[i], classname)
    decreases |templates|
  {
    if templates != [] {
      MatchesAnyIff(templates[1..], classname);
      assert forall i :: 0 < i < |templates| ==> templates[i] == templates[1..][i - 1];
    }
  }

  /** The filter: everything without arguments, otherwise exactly the names
      some argument accepts. */
  lemma AcceptsIff(templates: seq<string>, classname: string)
    ensures templates == [] ==> Accepts(templates, classname)
    ensures templates != [] ==>
      (Accepts(templates, classname) <==> exists i :: 0 <= i < |templates| && PatternAccepts(templates[i], classname))
  {
    MatchesAnyIff(templates, classname);
  }

  /** An argument always accepts its own class, whatever its case. */
  lemma AcceptsOwnName(name: string, others: seq<string>)
    ensures Accepts([name] + others, Lower(name))
  {
    assert ([name] + others)[0] == name;
  }

  // ---------------------------------------------------------------------------
  // Layout choice (main.py:98-102 and 119-122)

  /** The class-page layout: the first (most specific) entry of the ancestor
      chain whose layout file exists, or nothing. */
  function ClassLayout(chain: seq<string>, layouts: set<string>): (r: Option<string>)
    ensures r.Some? ==> r.value in layouts
  {
    if chain == [] then None
    else if chain[0] in layouts then Some(chain[0])
    else ClassLayout(chain[1..], layouts)
  }

  /** A class layout is found exactly when some chain entry has a layout, and it
      is the first such entry. */
  lemma {:induction false} ClassLayoutFirst(chain: seq<string>, layouts: set<string>)
    ensures ClassLayout(chain, layouts).Some? <==> exists k :: 0 <= k < |chain| && chain[k] in layouts
    ensures ClassLayout(chain, layouts).Some? ==>
      exists k :: 0 <= k < |chain| && chain[k] == ClassLayout(chain, layouts).value
                  && forall j :: 0 <= j < k ==> chain[j] !in layouts
    decreases |chain|
  {
    if chain != [] && chain[0] !in layouts {
      var r := ClassLayout(chain[1..], layouts);
      ClassLayoutFirst(chain[1..], layouts);
      assert forall k :: 0 < k < |chain| ==> chain[k] == chain[1..][k - 1];
      if r.Some? {
        var k :| 0 <= k < |chain[1..]| && chain[1..][k] == r.value
                 && forall j :: 0 <= j < k ==> chain[1..][j] !in layouts;
        assert forall j :: 0 <= j < k + 1 ==> chain[j] !in layouts by {
          forall j | 0 <= j < k + 1 ensures chain[j] !in layouts {
            if j > 0 { assert chain[j] == chain[1..][j - 1]; }
          }
        }
      }
    } else if chain != [] {
      assert chain[0] == ClassLayout(chain, layouts).value;
    }
  }

  /** The instance-page layout: the loop has no `break`, so the LAST (least
      specific) chain entry `N` whose `N_` layout exists wins; when none exists
      the class-page layout is kept. */
  function InstanceLayout(chain: seq<string>, layouts: set<string>, classLayout: string): string
    decreases |chain|
  {
    if chain == [] then classLayout
    else if chain[|chain| - 1] + "_" in layouts then chain[|chain| - 1] + "_"
    else InstanceLayout(chain[..|chain| - 1], layouts, classLayout)
  }

  /** The instance layout is the class layout when no chain entry `N` has an
      `N_` layout; otherwise it is `N_` for the last such entry. */
  lemma {:induction false} InstanceLayoutLast(chain: seq<string>, layouts: set<string>, classLayout: string)
    ensures (forall k :: 0 <= k < |chain| ==> chain[k] + "_" !in layouts) ==>
      InstanceLayout(chain, layouts, classLayout) == classLayout
    ensures (exists k :: 0 <= k < |chain| && chain[k] + "_" in layouts) ==>
      exists k :: 0 <= k < |chain| && InstanceLayout(chain, layouts, classLayout) == chain[k] + "_"
                  && chain[k] + "_" in layouts
                  && forall j :: k < j < |chain| ==> chain[j] + "_" !in layouts
    decreases |chain|
  {
    if chain != [] {
      var init := chain[..|chain| - 1];
      InstanceLayoutLast(init, layouts, classLayout);
      assert forall k :: 0 <= k < |init| ==> init[k] == chain[k];
      if chain[|chain| - 1] + "_" !in layouts && exists k :: 0 <= k < |chain| && chain[k] + "_" in layouts {
        var k :| 0 <= k < |chain| && chain[k] + "_" in layouts;
        assert k < |init| && init[k] + "_" in layouts;
      }
    }
  }

  /** The class-page layout loop, with its `break`. */
  method FindClassLayout(chain: seq<string>, layouts: set<string>) returns (found: bool, layout: string)
    ensures found == ClassLayout(chain, layouts).Some?
    ensures found ==> layout == ClassLayout(chain, layouts).value
  {
    found, layout := false, "";
    var i := 0;
    while i < |chain|
      invariant 0 <= i <= |chain|
      invariant ClassLayout(chain, layouts) == ClassLayout(chain[i..], layouts)
    {
      if chain[i] in layouts {
        found, layout := true, chain[i];
        break;
      }
      assert chain[i..][1..] == chain[i + 1..];
      i := i + 1;
    }
  }

  /** The instance-page layout loop: every match reassigns `layout`. */
  method FindInstanceLayout(chain: seq<string>, layouts: set<string>, classLayout: string)
    returns (layout: string)
    ensures layout == InstanceLayout(chain, layouts, classLayout)
  {
    layout := classLayout;
    for i := 0 to |chain|
      invariant layout == InstanceLayout(chain[..i], layouts, classLayout)
    {
      assert chain[..i + 1][..i] == chain[..i];
      if chain[i] + "_" in layouts {
        layout := chain[i] + "_";
      }
    }
    assert chain[..|chain|] == chain;
  }

  /** Once the chain ends in `x2datatemplate` and the site has a layout of that
      name, every class page finds a layout. */
  lemma DefaultLayoutAlwaysFound(chain: seq<string>, layouts: set<string>)
    requires chain != [] && chain[|chain| - 1] == "x2datatemplate"
    requires "x2datatemplate" in layouts
    ensures ClassLayout(chain, layouts).Some?
  {
    assert chain[|chain| - 1] in layouts;
  }

  // ---------------------------------------------------------------------------
  // The walk, as a specification

  /** The pages of one class (main.py:82-139), given its ancestor chain, whose
      first entry is the class's own case-folded name. */
  function OwnPages(cfg: Config, node: ClassNode, chain: seq<string>): Outcome
    requires chain != []
  {
    var classname := chain[0];
    if !Accepts(cfg.templates, classname) then Outcome([], None)
    else
      match ClassLayout(chain, cfg.layouts)
      case None =>
        Outcome([Write(ClassPath(classname), classname, None)], Some(LayoutUnbound(classname)))
      case Some(layout) =>
        var page := ClassPage(classname, Flavor, chain, layout, ClassPermalink(classname));
        var rest := InstancePages(cfg, chain, InstanceLayout(chain, cfg.layouts, layout), node.instances);
        Outcome([Write(ClassPath(classname), classname, Some(page))] + rest.writes, rest.failure)
  }

  /** The instance pages of one class, in the store's order, up to the first
      title that fails. */
  function InstancePages(cfg: Config, chain: seq<string>, layout: string, entries: seq<Entry>): Outcome
    requires chain != []
    decreases |entries|
  {
    if entries == [] then Outcome([], None)
    else
      var pre := InstancePages(cfg, chain, layout, entries[..|entries| - 1]);
      if pre.failure.Some? then pre
      else
        var e := entries[|entries| - 1];
        var classname := chain[0];
        var path := InstancePath(classname, e.dataname);
        match PageTitle(chain, e, cfg.table, cfg.rewards)
        case Err(err) =>
          Outcome(pre.writes + [Write(path, classname, None)], Some(TitleFailed(classname, e.dataname, err)))
        case Ok(title) =>
          var page := InstancePage(title, Flavor, chain, e.dataname, layout,
                                   InstancePermalink(classname, e.dataname));
          Outcome(pre.writes + [Write(path, classname, Some(page))], None)
  }

  /** `recurse_classes(args, x2, node)` with `parentChain` the chain of the
      caller's class: all subclasses first, then the class's own pages. */
  function WalkNode(cfg: Config, node: ClassNode, parentChain: seq<string>): Outcome
    decreases node
  {
    var chain := [Lower(node.name)] + parentChain;
    var kids := WalkChildren(cfg, node.children, chain);
    if kids.failure.Some? then kids
    else
      var own := OwnPages(cfg, node, chain);
      Outcome(kids.writes + own.writes, own.failure)
  }

  /** The loop over `__subclasses__()`; the first failure ends the walk. */
  function WalkChildren(cfg: Config, children: seq<ClassNode>, chain: seq<string>): Outcome
    decreases children
  {
    if children == [] then Outcome([], None)
    else
      var pre := WalkChildren(cfg, children[..|children| - 1], chain);
      if pre.failure.Some? then pre
      else
        var last := WalkNode(cfg, children[|children| - 1], chain);
        Outcome(pre.writes + last.writes, last.failure)
  }

  /** Unfolds the subclass walk at its last subclass. */
  lemma WalkChildrenSnoc(cfg: Config, children: seq<ClassNode>, chain: seq<string>)
    requires children != []
    requires WalkChildren(cfg, children[..|children| - 1], chain).failure.None?
    ensures WalkChildren(cfg, children, chain) ==
      Outcome(WalkChildren(cfg, children[..|children| - 1], chain).writes
              + WalkNode(cfg, children[|children| - 1], chain).writes,
              WalkNode(cfg, children[|children| - 1], chain).failure)
  {
  }

  /** After a failure among the first `k` subclasses, the rest are not visited. */
  lemma {:induction false} WalkChildrenStops(cfg: Config, children: seq<ClassNode>, chain: seq<string>, k: nat)
    requires k <= |children|
    requires WalkChildren(cfg, children[..k], chain).failure.Some?
    ensures WalkChildren(cfg, children, chain) == WalkChildren(cfg, children[..k], chain)
    decreases |children|
  {
    if k < |children| {
      var init := children[..|children| - 1];
      assert init[..k] == children[..k];
      WalkChildrenStops(cfg, init, chain, k);
    } else {
      assert children[..k] == children;
    }
  }

  /** After a failing title among the first `k` instances, the rest get no page. */
  lemma {:induction false} InstancePagesStops(cfg: Config, chain: seq<string>, layout: string,
                                              entries: seq<Entry>, k: nat)
    requires chain != [] && k <= |entries|
    requires InstancePages(cfg, chain, layout, entries[..k]).failure.Some?
    ensures InstancePages(cfg, chain, layout, entries) == InstancePages(cfg, chain, layout, entries[..k])
    decreases |entries|
  {
    if k < |entries| {
      var init := entries[..|entries| - 1];
      assert init[..k] == entries[..k];
      InstancePagesStops(cfg, chain, layout, init, k);
    } else {
      assert entries[..k] == entries;
    }
  }

  // ---------------------------------------------------------------------------
  // What the walk emits: counted per class and per instance

  /** A page the walk can write: a class's page, or one instance's page. */
  datatype PageKey = ClassKey(classname: string) | InstanceKey(classname: string, dataname: string)

  predicate IsPageFor(w: Write, key: PageKey) {
    w.owner == key.classname && w.page.Some? &&
    match key
    case ClassKey(_) => w.page.value.ClassPage?
    case InstanceKey(_, d) => w.page.value.InstancePage? && w.page.value.dataname == d
  }

  /** How many written files hold the page `key`. */
  function PageCount(ws: seq<Write>, key: PageKey): nat
    decreases |ws|
  {
    if ws == [] then 0
    else PageCount(ws[..|ws| - 1], key) + if IsPageFor(ws[|ws| - 1], key) then 1 else 0
  }

  lemma {:induction false} PageCountAppend(a: seq<Write>, b: seq<Write>, key: PageKey)
    ensures PageCount(a + b, key) == PageCount(a, key) + PageCount(b, key)
    decreases |b|
  {
    if b != [] {
      assert (a + b)[..|a + b| - 1] == a + b[..|b| - 1];
      PageCountAppend(a, b[..|b| - 1], key);
    } else {
      assert a + b == a;
    }
  }

  /** How many instances in `entries` are called `d`. */
  function EntriesNamed(entries: seq<Entry>, d: string): nat
    decreases |entries|
  {
    if entries == [] then 0
    else EntriesNamed(entries[..|entries| - 1], d) + if entries[|entries| - 1].dataname == d then 1 else 0
  }

  /** How many pages the store asks for under `key` in the tree below `node`:
      one per class folded to the name, one per instance of such a class. */
  function StoreCount(node: ClassNode, key: PageKey): nat
    decreases node
  {
    var own :=
      if Lower(node.name) != key.classname then 0
      else match key
        case ClassKey(_) => 1
        case InstanceKey(_, d) => EntriesNamed(node.instances, d);
    own + StoreCountAll(node.children, key)
  }

  function StoreCountAll(children: seq<ClassNode>, key: PageKey): nat
    decreases children
  {
    if children == [] then 0
    else StoreCountAll(children[..|children| - 1], key) + StoreCount(children[|children| - 1], key)
  }

  /** A run of instance pages that completes ends with the page of the last
      instance, written after those of the instances before it. */
  lemma InstancePagesLast(cfg: Config, chain: seq<string>, layout: string, entries: seq<Entry>)
    requires chain != [] && entries != []
    requires InstancePages(cfg, chain, layout, entries).failure.None?
    ensures InstancePages(cfg, chain, layout, entries[..|entries| - 1]).failure.None?
    ensures var ws := InstancePages(cfg, chain, layout, entries).writes;
      |ws| > 0 && ws[..|ws| - 1] == InstancePages(cfg, chain, layout, entries[..|entries| - 1]).writes &&
      ws[|ws| - 1].owner == chain[0] && ws[|ws| - 1].page.Some? &&
      ws[|ws| - 1].page.value.InstancePage? && ws[|ws| - 1].page.value.dataname == entries[|entries| - 1].dataname
  {
    var pre := InstancePages(cfg, chain, layout, entries[..|entries| - 1]);
    var ws := InstancePages(cfg, chain, layout, entries).writes;
    assert ws[..|ws| - 1] == pre.writes;
  }

  /** The instance pages of a class that completes: one per instance. */
  lemma {:induction false} InstancePagesCount(cfg: Config, chain: seq<string>, layout: string,
                                              entries: seq<Entry>, key: PageKey)
    requires chain != []
    requires InstancePages(cfg, chain, layout, entries).failure.None?
    ensures PageCount(InstancePages(cfg, chain, layout, entries).writes, key) ==
      if key.InstanceKey? && key.classname == chain[0] then EntriesNamed(entries, key.dataname) else 0
    decreases |entries|
  {
    if entries != [] {
      InstancePagesLast(cfg, chain, layout, entries);
      InstancePagesCount(cfg, chain, layout, entries[..|entries| - 1], key);
    }
  }

  /** The pages of one class that completes: one class page and its instances'
      pages when the filter accepts it, none otherwise. */
  lemma OwnPagesCount(cfg: Config, node: ClassNode, chain: seq<string>, key: PageKey)
    requires chain != [] && chain[0] == Lower(node.name)
    requires OwnPages(cfg, node, chain).failure.None?
    ensures PageCount(OwnPages(cfg, node, chain).writes, key) ==
      if Accepts(cfg.templates, key.classname) then StoreCount(node, key) - StoreCountAll(node.children, key)
      else 0
  {
    var classname := chain[0];
    var own := OwnPages(cfg, node, chain);
    if Accepts(cfg.templates, classname) {
      var layout := ClassLayout(chain, cfg.layouts).value;
      var rest := InstancePages(cfg, chain, InstanceLayout(chain, cfg.layouts, layout), node.instances);
      var head := own.writes[0];
      assert own.writes == [head] + rest.writes;
      PageCountAppend([head], rest.writes, key);
      InstancePagesCount(cfg, chain, InstanceLayout(chain, cfg.layouts, layout), node.instances, key);
      assert [head][..0] == [];
      if classname != key.classname {
        assert PageCount([head], key) == 0;
      }
    }
  }

  /** The walk visits every class below `node`, whatever the filter says about
      its ancestors. When it completes, it has written exactly one page per
      class and per instance the store holds for an accepted class name, and no
      page for a rejected one. */
  lemma {:induction false} WalkNodeCount(cfg: Config, node: ClassNode, parentChain: seq<string>, key: PageKey)
    requires WalkNode(cfg, node, parentChain).failure.None?
    ensures PageCount(WalkNode(cfg, node, parentChain).writes, key) ==
      if Accepts(cfg.templates, key.classname) then StoreCount(node, key) else 0
    decreases node, 1
  {
    var chain := [Lower(node.name)] + parentChain;
    var kids := WalkChildren(cfg, node.children, chain);
    WalkChildrenCount(cfg, node.children, chain, key);
    var own := OwnPages(cfg, node, chain);
    OwnPagesCount(cfg, node, chain, key);
    PageCountAppend(kids.writes, own.writes, key);
  }

  lemma {:induction false} WalkChildrenCount(cfg: Config, children: seq<ClassNode>, chain: seq<string>, key: PageKey)
    requires WalkChildren(cfg, children, chain).failure.None?
    ensures PageCount(WalkChildren(cfg, children, chain).writes, key) ==
      if Accepts(cfg.templates, key.classname) then StoreCountAll(children, key) else 0
    decreases children
  {
    if children != [] {
      var init := children[..|children| - 1];
      var last := children[|children| - 1];
      WalkChildrenCount(cfg, init, chain, key);
      WalkNodeCount(cfg, last, chain, key);
      PageCountAppend(WalkChildren(cfg, init, chain).writes, WalkNode(cfg, last, chain).writes, key);
    }
  }

  // ---------------------------------------------------------------------------
  // What every written page looks like

  /** A written file belongs to an accepted class, and a page in it is
      consistent: the chain starts at its owner, the path and permalink are
      the owner's (and instance's), and its layout is the one the layout rules
      pick for that chain and exists on the site. */
  predicate PageWellFormed(cfg: Config, w: Write) {
    Accepts(cfg.templates, w.owner) &&
    (w.page.Some? ==>
      var p := w.page.value;
      p.flavor == Flavor && p.uclass != [] && p.uclass[0] == w.owner &&
      ClassLayout(p.uclass, cfg.layouts).Some? && p.layout in cfg.layouts &&
      match p
      case ClassPage(title, _, uclass, layout, permalink) =>
        title == w.owner && w.path == ClassPath(w.owner) && permalink == ClassPermalink(w.owner)
        && layout == ClassLayout(uclass, cfg.layouts).value
      case InstancePage(_, _, uclass, d, layout, permalink) =>
        w.path == InstancePath(w.owner, d) && permalink == InstancePermalink(w.owner, d)
        && layout == InstanceLayout(uclass, cfg.layouts, ClassLayout(uclass, cfg.layouts).value))
  }

  /** Every page is well formed, and an empty file can only be the last one,
      left behind by the failure that ended the walk. */
  predicate Sound(cfg: Config, o: Outcome) {
    (forall i :: 0 <= i < |o.writes| ==> PageWellFormed(cfg, o.writes[i])) &&
    (forall i :: 0 <= i < |o.writes| && o.writes[i].page.None? ==>
      i == |o.writes| - 1 && o.failure.Some?)
  }

  lemma SoundAppend(cfg: Config, a: Outcome, b: Outcome)
    requires Sound(cfg, a) && a.failure.None? && Sound(cfg, b)
    ensures Sound(cfg, Outcome(a.writes + b.writes, b.failure))
  {
    var ws := a.writes + b.writes;
    forall i | 0 <= i < |ws|
      ensures PageWellFormed(cfg, ws[i])
      ensures ws[i].page.None? ==> i == |ws| - 1 && b.failure.Some?
    {
      if i >= |a.writes| {
        assert ws[i] == b.writes[i - |a.writes|];
      }
    }
  }

  /** The instance layout is an existing layout whenever the class layout is. */
  lemma InstanceLayoutExists(chain: seq<string>, layouts: set<string>, classLayout: string)
    requires classLayout in layouts
    ensures InstanceLayout(chain, layouts, classLayout) in layouts
  {
    if exists k :: 0 <= k < |chain| && chain[k] + "_" in layouts {
    }
  }

  /** One more instance after a run that completed: its file is appended,
      holding its page exactly when its title rule succeeds. */
  lemma InstancePagesStep(cfg: Config, chain: seq<string>, layout: string, entries: seq<Entry>)
    requires chain != [] && entries != []
    requires InstancePages(cfg, chain, layout, entries[..|entries| - 1]).failure.None?
    ensures var o := InstancePages(cfg, chain, layout, entries);
      var d := entries[|entries| - 1].dataname;
      |o.writes| > 0 &&
      o.writes[..|o.writes| - 1] == InstancePages(cfg, chain, layout, entries[..|entries| - 1]).writes &&
      o.writes[|o.writes| - 1].owner == chain[0] &&
      o.writes[|o.writes| - 1].path == InstancePath(chain[0], d) &&
      (o.writes[|o.writes| - 1].page.None? <==> o.failure.Some?) &&
      (o.writes[|o.writes| - 1].page.Some? ==>
        var p := o.writes[|o.writes| - 1].page.value;
        p.InstancePage? && p.flavor == Flavor && p.uclass == chain && p.dataname == d &&
        p.layout == layout && p.permalink == InstancePermalink(chain[0], d))
  {
    var pre := InstancePages(cfg, chain, layout, entries[..|entries| - 1]);
    var ws := InstancePages(cfg, chain, layout, entries).writes;
    assert ws[..|ws| - 1] == pre.writes;
  }

  /** `w` is a file of the class whose ancestor chain is `chain`. */
  predicate OwnedBy(w: Write, chain: seq<string>) {
    chain != [] && w.owner == chain[0] && (w.page.Some? ==> w.page.value.uclass == chain)
  }

  /** The instance pages of an accepted class that has a layout are sound and
      all belong to that class. */
  lemma {:induction false} InstancePagesSound(cfg: Config, chain: seq<string>, layout: string, entries: seq<Entry>)
    requires chain != [] && Accepts(cfg.templates, chain[0])
    requires ClassLayout(chain, cfg.layouts).Some?
    requires layout == InstanceLayout(chain, cfg.layouts, ClassLayout(chain, cfg.layouts).value)
    ensures Sound(cfg, InstancePages(cfg, chain, layout, entries))
    ensures forall i :: 0 <= i < |InstancePages(cfg, chain, layout, entries).writes| ==>
      OwnedBy(InstancePages(cfg, chain, layout, entries).writes[i], chain)
    decreases |entries|
  {
    if entries != [] {
      var init := entries[..|entries| - 1];
      InstancePagesSound(cfg, chain, layout, init);
      var pre := InstancePages(cfg, chain, layout, init);
      if pre.failure.None? {
        InstancePagesStep(cfg, chain, layout, entries);
        InstanceLayoutExists(chain, cfg.layouts, ClassLayout(chain, cfg.layouts).value);
        var o := InstancePages(cfg, chain, layout, entries);
        assert o.writes == pre.writes + [o.writes[|o.writes| - 1]];
        forall i | 0 <= i < |o.writes|
          ensures PageWellFormed(cfg, o.writes[i]) && OwnedBy(o.writes[i], chain)
          ensures o.writes[i].page.None? ==> i == |o.writes| - 1 && o.failure.Some?
        {
          if i < |o.writes| - 1 {
            assert o.writes[i] == pre.writes[i];
          }
        }
      } else {
        InstancePagesStops(cfg, chain, layout, entries, |entries| - 1);
      }
    }
  }

  /** The pages of one class are sound and all belong to it. */
  lemma OwnPagesSound(cfg: Config, node: ClassNode, chain: seq<string>)
    requires chain != []
    ensures Sound(cfg, OwnPages(cfg, node, chain))
    ensures forall i :: 0 <= i < |OwnPages(cfg, node, chain).writes| ==>
      OwnedBy(OwnPages(cfg, node, chain).writes[i], chain)
  {
    var classname := chain[0];
    if Accepts(cfg.templates, classname) && ClassLayout(chain, cfg.layouts).Some? {
      var layout := ClassLayout(chain, cfg.layouts).value;
      var il := InstanceLayout(chain, cfg.layouts, layout);
      InstancePagesSound(cfg, chain, il, node.instances);
      var head := Write(ClassPath(classname), classname,
                        Some(ClassPage(classname, Flavor, chain, layout, ClassPermalink(classname))));
      var head_o := Outcome([head], None);
      SoundAppend(cfg, head_o, InstancePages(cfg, chain, il, node.instances));
      var own := OwnPages(cfg, node, chain);
      forall i | 0 <= i < |own.writes|
        ensures OwnedBy(own.writes[i], chain)
      {
        if i > 0 {
          assert own.writes[i] == InstancePages(cfg, chain, il, node.instances).writes[i - 1];
        }
      }
    }
  }

  /** The file opened for instance `e` of the class whose chain is `chain`: it
      is at the instance's path, it is empty exactly when the instance's title
      fails, and otherwise it holds the instance's page, titled as
      `template.guess_title() or dataname` evaluates. */
  predicate InstanceFileFor(cfg: Config, chain: seq<string>, e: Entry, w: Write)
    requires chain != []
  {
    w.owner == chain[0] && w.path == InstancePath(chain[0], e.dataname) &&
    (w.page.None? <==> PageTitle(chain, e, cfg.table, cfg.rewards).Err?) &&
    (w.page.Some? ==>
      w.page.value.InstancePage? && w.page.value.dataname == e.dataname &&
      Ok(w.page.value.title) == PageTitle(chain, e, cfg.table, cfg.rewards))
  }

  /** One more instance after a run that completed: the file appended is
      that instance's, and the run goes on exactly when its title succeeds. */
  lemma InstanceFileStep(cfg: Config, chain: seq<string>, layout: string, entries: seq<Entry>)
    requires chain != [] && entries != []
    requires InstancePages(cfg, chain, layout, entries[..|entries| - 1]).failure.None?
    ensures var o := InstancePages(cfg, chain, layout, entries);
      var e := entries[|entries| - 1];
      |o.writes| > 0 &&
      o.writes == InstancePages(cfg, chain, layout, entries[..|entries| - 1]).writes + [o.writes[|o.writes| - 1]] &&
      InstanceFileFor(cfg, chain, e, o.writes[|o.writes| - 1]) &&
      (o.failure.None? <==> PageTitle(chain, e, cfg.table, cfg.rewards).Ok?)
  {
  }

  /** `ws` are the files of the first `|ws|` instances of `entries`, in order. */
  predicate FilesFor(cfg: Config, chain: seq<string>, entries: seq<Entry>, ws: seq<Write>)
    requires chain != []
  {
    |ws| <= |entries| && forall i :: 0 <= i < |ws| ==> InstanceFileFor(cfg, chain, entries[i], ws[i])
  }

  lemma FilesForWiden(cfg: Config, chain: seq<string>, entries: seq<Entry>, ws: seq<Write>)
    requires chain != [] && entries != []
    requires FilesFor(cfg, chain, entries[..|entries| - 1], ws)
    ensures FilesFor(cfg, chain, entries, ws)
  {
    var init := entries[..|entries| - 1];
    forall i | 0 <= i < |ws| ensures InstanceFileFor(cfg, chain, entries[i], ws[i]) {
      assert entries[i] == init[i];
    }
  }

  lemma FilesForSnoc(cfg: Config, chain: seq<string>, entries: seq<Entry>, ws: seq<Write>, w: Write)
    requires chain != [] && entries != []
    requires FilesFor(cfg, chain, entries[..|entries| - 1], ws) && |ws| == |entries| - 1
    requires InstanceFileFor(cfg, chain, entries[|entries| - 1], w)
    ensures FilesFor(cfg, chain, entries, ws + [w])
  {
    var init := entries[..|entries| - 1];
    var o := ws + [w];
    forall i | 0 <= i < |o| ensures InstanceFileFor(cfg, chain, entries[i], o[i]) {
      if i < |ws| {
        assert o[i] == ws[i] && entries[i] == init[i];
      }
    }
  }

  /** The instance loop opens one file per instance, in order, each titled by
      its instance's title rule. */
  lemma {:induction false} InstancePagesTitles(cfg: Config, chain: seq<string>, layout: string, entries: seq<Entry>)
    requires chain != []
    ensures var o := InstancePages(cfg, chain, layout, entries);
      |o.writes| <= |entries| && (o.failure.None? ==> |o.writes| == |entries|) &&
      forall i :: 0 <= i < |o.writes| ==> InstanceFileFor(cfg, chain, entries[i], o.writes[i])
    decreases |entries|
  {
    InstancePagesFiles(cfg, chain, layout, entries);
  }

  lemma {:induction false} InstancePagesFiles(cfg: Config, chain: seq<string>, layout: string, entries: seq<Entry>)
    requires chain != []
    ensures var o := InstancePages(cfg, chain, layout, entries);
      FilesFor(cfg, chain, entries, o.writes) && (o.failure.None? ==> |o.writes| == |entries|)
    decreases |entries|
  {
    if entries != [] {
      var init := entries[..|entries| - 1];
      InstancePagesFiles(cfg, chain, layout, init);
      var pre := InstancePages(cfg, chain, layout, init);
      if pre.failure.None? {
        InstanceFileStep(cfg, chain, layout, entries);
        var o := InstancePages(cfg, chain, layout, entries);
        FilesForSnoc(cfg, chain, entries, pre.writes, o.writes[|o.writes| - 1]);
      } else {
        FilesForWiden(cfg, chain, entries, pre.writes);
      }
    }
  }

  /** The title of instance `e` of the class whose chain is `chain` succeeds. */
  predicate Titled(cfg: Config, chain: seq<string>, e: Entry) {
    PageTitle(chain, e, cfg.table, cfg.rewards).Ok?
  }

  /** Every instance in `entries` has a title. */
  predicate AllTitled(cfg: Config, chain: seq<string>, entries: seq<Entry>) {
    forall k :: 0 <= k < |entries| ==> Titled(cfg, chain, entries[k])
  }

  lemma AllTitledSnoc(cfg: Config, chain: seq<string>, entries: seq<Entry>)
    requires entries != []
    ensures AllTitled(cfg, chain, entries) <==>
      AllTitled(cfg, chain, entries[..|entries| - 1]) && Titled(cfg, chain, entries[|entries| - 1])
  {
    assert forall k :: 0 <= k < |entries| - 1 ==> entries[..|entries| - 1][k] == entries[k];
  }

  /** After a run that completed, the next instance continues the run exactly
      when its title succeeds. */
  lemma InstanceContinues(cfg: Config, chain: seq<string>, layout: string, entries: seq<Entry>)
    requires chain != [] && entries != []
    requires InstancePages(cfg, chain, layout, entries[..|entries| - 1]).failure.None?
    ensures InstancePages(cfg, chain, layout, entries).failure.None? <==> Titled(cfg, chain, entries[|entries| - 1])
  {
  }

  /** The instance loop runs to the end exactly when every title succeeds. */
  lemma {:induction false} InstancePagesCompletes(cfg: Config, chain: seq<string>, layout: string, entries: seq<Entry>)
    requires chain != []
    ensures InstancePages(cfg, chain, layout, entries).failure.None? <==> AllTitled(cfg, chain, entries)
    decreases |entries|
  {
    if entries != [] {
      var init := entries[..|entries| - 1];
      InstancePagesCompletes(cfg, chain, layout, init);
      AllTitledSnoc(cfg, chain, entries);
      if InstancePages(cfg, chain, layout, init).failure.None? {
        InstanceContinues(cfg, chain, layout, entries);
      } else {
        InstancePagesStops(cfg, chain, layout, entries, |init|);
      }
    }
  }

  /** The pages of one class complete unless the class is accepted and either
      has no class layout or has an instance whose title fails. */
  predicate OwnCompletes(cfg: Config, node: ClassNode, chain: seq<string>)
    requires chain != []
  {
    Accepts(cfg.templates, chain[0]) ==>
      ClassLayout(chain, cfg.layouts).Some? && AllTitled(cfg, chain, node.instances)
  }

  lemma OwnPagesCompletes(cfg: Config, node: ClassNode, chain: seq<string>)
    requires chain != []
    ensures OwnPages(cfg, node, chain).failure.None? <==> OwnCompletes(cfg, node, chain)
  {
    if Accepts(cfg.templates, chain[0]) && ClassLayout(chain, cfg.layouts).Some? {
      var layout := ClassLayout(chain, cfg.layouts).value;
      InstancePagesCompletes(cfg, chain, InstanceLayout(chain, cfg.layouts, layout), node.instances);
    }
  }

  /** The walk from `node` completes: every accepted class below it, with the
      chain the walk gives it, has a class layout and a title for each of its
      instances. */
  predicate Completes(cfg: Config, node: ClassNode, parentChain: seq<string>)
    decreases node, 1
  {
    var chain := [Lower(node.name)] + parentChain;
    CompletesAll(cfg, node.children, chain) && OwnCompletes(cfg, node, chain)
  }

  predicate CompletesAll(cfg: Config, children: seq<ClassNode>, chain: seq<string>)
    decreases children, 0
  {
    forall k :: 0 <= k < |children| ==> Completes(cfg, children[k], chain)
  }

  /** The walk ends without an error exactly when it completes: the program
      stops only for an accepted class without a class layout (`layout`
      unbound) or for an instance whose title rule raises. */
  lemma {:induction false} WalkNodeCompletes(cfg: Config, node: ClassNode, parentChain: seq<string>)
    ensures WalkNode(cfg, node, parentChain).failure.None? <==> Completes(cfg, node, parentChain)
    decreases node, 1
  {
    var chain := [Lower(node.name)] + parentChain;
    WalkChildrenCompletes(cfg, node.children, chain);
    OwnPagesCompletes(cfg, node, chain);
  }

  lemma {:induction false} WalkChildrenCompletes(cfg: Config, children: seq<ClassNode>, chain: seq<string>)
    ensures WalkChildren(cfg, children, chain).failure.None? <==> CompletesAll(cfg, children, chain)
    decreases children, 0
  {
    if children != [] {
      var init := children[..|children| - 1];
      var last := children[|children| - 1];
      WalkChildrenCompletes(cfg, init, chain);
      WalkNodeCompletes(cfg, last, chain);
      assert forall k :: 0 <= k < |init| ==> init[k] == children[k];
    }
  }

  /** The names, case-folded, of a class and all its subclasses. */
  function Names(node: ClassNode): set<string>
    decreases node
  {
    {Lower(node.name)} + NamesAll(node.children)
  }

  function NamesAll(children: seq<ClassNode>): set<string>
    decreases children
  {
    if children == [] then {}
    else NamesAll(children[..|children| - 1]) + Names(children[|children| - 1])
  }

  /** Whatever happens, every file the walk opens is a sound page of an
      accepted class below `node`, and only the file that the failure
      interrupted is left empty. */
  lemma {:induction false} WalkNodeSound(cfg: Config, node: ClassNode, parentChain: seq<string>)
    ensures Sound(cfg, WalkNode(cfg, node, parentChain))
    ensures forall i :: 0 <= i < |WalkNode(cfg, node, parentChain).writes| ==>
      WalkNode(cfg, node, parentChain).writes[i].owner in Names(node)
    decreases node, 1
  {
    var chain := [Lower(node.name)] + parentChain;
    var kids := WalkChildren(cfg, node.children, chain);
    WalkChildrenSound(cfg, node.children, chain);
    if kids.failure.None? {
      var own := OwnPages(cfg, node, chain);
      OwnPagesSound(cfg, node, chain);
      SoundAppend(cfg, kids, own);
      var ws := WalkNode(cfg, node, parentChain).writes;
      forall i | 0 <= i < |ws|
        ensures ws[i].owner in Names(node)
      {
        if i < |kids.writes| {
          assert ws[i] == kids.writes[i];
        } else {
          assert ws[i] == own.writes[i - |kids.writes|];
        }
      }
    }
  }

  lemma {:induction false} WalkChildrenSound(cfg: Config, children: seq<ClassNode>, chain: seq<string>)
    ensures Sound(cfg, WalkChildren(cfg, children, chain))
    ensures forall i :: 0 <= i < |WalkChildren(cfg, children, chain).writes| ==>
      WalkChildren(cfg, children, chain).writes[i].owner in NamesAll(children)
    decreases children
  {
    if children != [] {
      var init := children[..|children| - 1];
      var last := children[|children| - 1];
      var pre := WalkChildren(cfg, init, chain);
      WalkChildrenSound(cfg, init, chain);
      if pre.failure.None? {
        var node := WalkNode(cfg, last, chain);
        WalkNodeSound(cfg, last, chain);
        SoundAppend(cfg, pre, node);
        var ws := WalkChildren(cfg, children, chain).writes;
        forall i | 0 <= i < |ws|
          ensures ws[i].owner in NamesAll(children)
        {
          if i < |pre.writes| {
            assert ws[i] == pre.writes[i];
          } else {
            assert ws[i] == node.writes[i - |pre.writes|];
          }
        }
      }
    }
  }

  /** Read from its end, `u` is a path down the class tree from `node`: its
      last entry is `node`'s case-folded name, and each entry before that names
      a direct subclass of the class named after it. */
  predicate PathFrom(node: ClassNode, u: seq<string>)
    decreases node
  {
    u != [] && u[|u| - 1] == Lower(node.name) &&
    (|u| == 1 || exists k :: 0 <= k < |node.children| && PathFrom(node.children[k], u[..|u| - 1]))
  }

  /** A page written below `node`, whose own ancestors are `ancestors`, names
      an ancestor chain made of its path up the tree to `node`, followed by
      exactly those ancestors. */
  predicate ChainedBelow(w: Write, node: ClassNode, ancestors: seq<string>) {
    w.page.Some? ==>
      var u := w.page.value.uclass;
      |u| > |ancestors| && u[|u| - |ancestors|..] == ancestors && PathFrom(node, u[..|u| - |ancestors|])
  }

  /** The same, below one of `children`, whose parent's chain is `chain`. */
  predicate ChainedInto(w: Write, children: seq<ClassNode>, chain: seq<string>) {
    w.page.Some? ==>
      var u := w.page.value.uclass;
      |u| > |chain| && u[|u| - |chain|..] == chain &&
      exists k :: 0 <= k < |children| && PathFrom(children[k], u[..|u| - |chain|])
  }

  lemma ChainedLift(w: Write, node: ClassNode, ancestors: seq<string>)
    requires ChainedInto(w, node.children, [Lower(node.name)] + ancestors)
    ensures ChainedBelow(w, node, ancestors)
  {
    if w.page.Some? {
      var u := w.page.value.uclass;
      var n := |ancestors|;
      var chain := [Lower(node.name)] + ancestors;
      assert u[|u| - n - 1..] == chain;
      assert u[|u| - n..] == u[|u| - n - 1..][1..];
      var p := u[..|u| - n];
      assert p[|p| - 1] == u[|u| - n - 1] == Lower(node.name);
      assert p[..|p| - 1] == u[..|u| - |chain|];
      var k :| 0 <= k < |node.children| && PathFrom(node.children[k], u[..|u| - |chain|]);
      assert PathFrom(node.children[k], p[..|p| - 1]);
    }
  }

  lemma ChainedWiden(w: Write, children: seq<ClassNode>, chain: seq<string>)
    requires children != []
    requires ChainedInto(w, children[..|children| - 1], chain)
    ensures ChainedInto(w, children, chain)
  {
    if w.page.Some? {
      var u := w.page.value.uclass;
      var init := children[..|children| - 1];
      var k :| 0 <= k < |init| && PathFrom(init[k], u[..|u| - |chain|]);
      assert init[k] == children[k];
    }
  }

  lemma ChainedLast(w: Write, children: seq<ClassNode>, chain: seq<string>)
    requires children != []
    requires ChainedBelow(w, children[|children| - 1], chain)
    ensures ChainedInto(w, children, chain)
  {
  }

  /** Every page of the walk names the ancestor chain of its class: the path up
      the tree from the class to `node`, then the chain `node` was given. With
      an empty start chain from the root, this is the class's whole ancestry. */
  lemma {:induction false} WalkNodeChains(cfg: Config, node: ClassNode, parentChain: seq<string>)
    ensures forall i :: 0 <= i < |WalkNode(cfg, node, parentChain).writes| ==>
      ChainedBelow(WalkNode(cfg, node, parentChain).writes[i], node, parentChain)
    decreases node, 1
  {
    var chain := [Lower(node.name)] + parentChain;
    var kids := WalkChildren(cfg, node.children, chain);
    WalkChildrenChains(cfg, node.children, chain);
    var ws := WalkNode(cfg, node, parentChain).writes;
    forall i | 0 <= i < |kids.writes|
      ensures ChainedBelow(kids.writes[i], node, parentChain)
    {
      ChainedLift(kids.writes[i], node, parentChain);
    }
    if kids.failure.None? {
      var own := OwnPages(cfg, node, chain);
      OwnPagesSound(cfg, node, chain);
      forall i | 0 <= i < |ws|
        ensures ChainedBelow(ws[i], node, parentChain)
      {
        if i < |kids.writes| {
          assert ws[i] == kids.writes[i];
        } else {
          assert ws[i] == own.writes[i - |kids.writes|];
          assert chain[|chain| - |parentChain|..] == parentChain;
          assert chain[..|chain| - |parentChain|] == [Lower(node.name)];
        }
      }
    }
  }

  lemma {:induction false} WalkChildrenChains(cfg: Config, children: seq<ClassNode>, chain: seq<string>)
    ensures forall i :: 0 <= i < |WalkChildren(cfg, children, chain).writes| ==>
      ChainedInto(WalkChildren(cfg, children, chain).writes[i], children, chain)
    decreases children
  {
    if children != [] {
      var init := children[..|children| - 1];
      var last := children[|children| - 1];
      var pre := WalkChildren(cfg, init, chain);
      WalkChildrenChains(cfg, init, chain);
      var ws := WalkChildren(cfg, children, chain).writes;
      if pre.failure.None? {
        var node := WalkNode(cfg, last, chain);
        WalkNodeChains(cfg, last, chain);
        forall i | 0 <= i < |ws|
          ensures ChainedInto(ws[i], children, chain)
        {
          if i < |pre.writes| {
            assert ws[i] == pre.writes[i];
            ChainedWiden(ws[i], children, chain);
          } else {
            assert ws[i] == node.writes[i - |pre.writes|];
            ChainedLast(ws[i], children, chain);
          }
        }
      } else {
        forall i | 0 <= i < |ws|
          ensures ChainedInto(ws[i], children, chain)
        {
          ChainedWiden(ws[i], children, chain);
        }
      }
    }
  }

  /** Post-order: when no subclass folds to the class's own name, every file of
      a subclass is opened before any file of the class itself. */
  lemma PostOrder(cfg: Config, node: ClassNode, parentChain: seq<string>)
    requires Lower(node.name) !in NamesAll(node.children)
    ensures var ws := WalkNode(cfg, node, parentChain).writes;
      forall i, j ::
        (0 <= i < |ws| && 0 <= j < |ws| && ws[i].owner in NamesAll(node.children) && ws[j].owner == Lower(node.name))
        ==> i < j
  {
    var chain := [Lower(node.name)] + parentChain;
    var kids := WalkChildren(cfg, node.children, chain);
    WalkChildrenSound(cfg, node.children, chain);
    var ws := WalkNode(cfg, node, parentChain).writes;
    if kids.failure.None? {
      var own := OwnPages(cfg, node, chain);
      OwnPagesSound(cfg, node, chain);
      assert ws == kids.writes + own.writes;
      forall k | |kids.writes| <= k < |ws|
        ensures ws[k].owner == Lower(node.name)
      {
        assert ws[k] == own.writes[k - |kids.writes|];
      }
    }
  }

  /** `w` is a page of a proper subclass of the class of `v`'s page: the
      ancestor chain of `v`'s class is a proper tail of that of `w`'s class. */
  predicate Below(w: Write, v: Write) {
    w.page.Some? && v.page.Some? &&
    var u := w.page.value.uclass;
    var t := v.page.value.uclass;
    |t| < |u| && u[|u| - |t|..] == t
  }

  /** Every page of a subclass comes before every page of its ancestors. */
  predicate PostOrdered(ws: seq<Write>) {
    forall i, j :: 0 <= i < |ws| && 0 <= j < |ws| && Below(ws[i], ws[j]) ==> i < j
  }

  /** No two of `children` fold to the same name. */
  predicate DistinctNames(children: seq<ClassNode>) {
    forall a, b :: 0 <= a < b < |children| ==> Lower(children[a].name) != Lower(children[b].name)
  }

  /** Sibling classes fold to distinct names, all through the tree. */
  predicate UniqueSiblings(node: ClassNode)
    decreases node, 1
  {
    AllUnique(node.children)
  }

  predicate AllUnique(children: seq<ClassNode>)
    decreases children, 0
  {
    DistinctNames(children) && forall k :: 0 <= k < |children| ==> UniqueSiblings(children[k])
  }

  lemma PostOrderedJoin(a: seq<Write>, b: seq<Write>)
    requires PostOrdered(a) && PostOrdered(b)
    requires forall i, j :: 0 <= i < |b| && 0 <= j < |a| ==> !Below(b[i], a[j])
    ensures PostOrdered(a + b)
  {
    var ws := a + b;
    forall i, j | 0 <= i < |ws| && 0 <= j < |ws| && Below(ws[i], ws[j])
      ensures i < j
    {
      if i < |a| && j < |a| {
        assert ws[i] == a[i] && ws[j] == a[j];
      } else if |a| <= i && |a| <= j {
        assert ws[i] == b[i - |a|] && ws[j] == b[j - |a|];
      }
    }
  }

  /** A page below the last of `children` is never below a page below one of
      the others, since the two chains part at the children's distinct names. */
  lemma SiblingsApart(w: Write, v: Write, children: seq<ClassNode>, chain: seq<string>)
    requires children != [] && DistinctNames(children)
    requires ChainedBelow(w, children[|children| - 1], chain)
    requires ChainedInto(v, children[..|children| - 1], chain)
    ensures !Below(w, v)
  {
  }

  /** Post-order over the whole output: with sibling names distinct, every
      page of a class comes after all pages of its subclasses at any depth. */
  lemma {:induction false} WalkNodePostOrder(cfg: Config, node: ClassNode, parentChain: seq<string>)
    requires UniqueSiblings(node)
    ensures PostOrdered(WalkNode(cfg, node, parentChain).writes)
    decreases node, 1
  {
    var chain := [Lower(node.name)] + parentChain;
    var kids := WalkChildren(cfg, node.children, chain);
    WalkChildrenPostOrder(cfg, node.children, chain);
    if kids.failure.None? {
      var own := OwnPages(cfg, node, chain);
      OwnPagesSound(cfg, node, chain);
      WalkChildrenChains(cfg, node.children, chain);
      assert PostOrdered(own.writes) by {
        forall i, j | 0 <= i < |own.writes| && 0 <= j < |own.writes|
          ensures !Below(own.writes[i], own.writes[j])
        {
          assert OwnedBy(own.writes[i], chain) && OwnedBy(own.writes[j], chain);
        }
      }
      forall i, j | 0 <= i < |own.writes| && 0 <= j < |kids.writes|
        ensures !Below(own.writes[i], kids.writes[j])
      {
        assert OwnedBy(own.writes[i], chain);
        assert ChainedInto(kids.writes[j], node.children, chain);
      }
      PostOrderedJoin(kids.writes, own.writes);
    }
  }

  lemma {:induction false} WalkChildrenPostOrder(cfg: Config, children: seq<ClassNode>, chain: seq<string>)
    requires AllUnique(children)
    ensures PostOrdered(WalkChildren(cfg, children, chain).writes)
    decreases children, 0
  {
    if children != [] {
      var init := children[..|children| - 1];
      var last := children[|children| - 1];
      assert AllUnique(init) by {
        forall k | 0 <= k < |init| ensures UniqueSiblings(init[k]) {
          assert init[k] == children[k];
        }
      }
      var pre := WalkChildren(cfg, init, chain);
      WalkChildrenPostOrder(cfg, init, chain);
      if pre.failure.None? {
        var node := WalkNode(cfg, last, chain);
        WalkNodePostOrder(cfg, last, chain);
        WalkChildrenChains(cfg, init, chain);
        WalkNodeChains(cfg, last, chain);
        forall i, j | 0 <= i < |node.writes| && 0 <= j < |pre.writes|
          ensures !Below(node.writes[i], pre.writes[j])
        {
          SiblingsApart(node.writes[i], pre.writes[j], children, chain);
        }
        PostOrderedJoin(pre.writes, node.writes);
      }
    }
  }

  // ---------------------------------------------------------------------------
  // The walk, as the program runs it

  /** The output directory `_wotc/`, as the list of files opened so far. */
  class SiteWriter {
    var written: seq<Write>

    constructor ()
      ensures written == []
    {
      written := [];
    }

    /** `recurse_classes` (main.py:76-139). Returns the error that ends the run,
        if any; the files written before it stay written. */
    method RecurseClasses(cfg: Config, node: ClassNode, parentChain: seq<string>)
      returns (failure: Option<PageError>)
      modifies this
      ensures written == old(written) + WalkNode(cfg, node, parentChain).writes
      ensures failure == WalkNode(cfg, node, parentChain).failure
      decreases node, 1
    {
      var chain := [Lower(node.name)] + parentChain;
      failure := WriteSubclasses(cfg, node.children, chain);
      if failure.Some? {
        return;
      }
      failure := WriteOwnPages(cfg, node, chain);
    }

    /** The loop over `uclass.__subclasses__()` (main.py:79-80). */
    method WriteSubclasses(cfg: Config, children: seq<ClassNode>, chain: seq<string>)
      returns (failure: Option<PageError>)
      modifies this
      ensures written == old(written) + WalkChildren(cfg, children, chain).writes
      ensures failure == WalkChildren(cfg, children, chain).failure
      decreases children
    {
      failure := None;
      var i := 0;
      while i < |children|
        invariant 0 <= i <= |children|
        invariant failure.None?
        invariant WalkChildren(cfg, children[..i], chain).failure.None?
        invariant written == old(written) + WalkChildren(cfg, children[..i], chain).writes
      {
        ghost var pre := WalkChildren(cfg, children[..i], chain);
        ghost var cs := children[..i + 1];
        assert |cs| == i + 1 && cs[..i] == children[..i] && cs[i] == children[i];
        ghost var w0 := written;
        failure := RecurseClasses(cfg, children[i], chain);
        ghost var last := WalkNode(cfg, children[i], chain);
        assert written == w0 + last.writes;
        WalkChildrenSnoc(cfg, cs, chain);
        assert WalkChildren(cfg, cs, chain) == Outcome(pre.writes + last.writes, last.failure);
        assert written == old(written) + (pre.writes + last.writes);
        if failure.Some? {
          WalkChildrenStops(cfg, children, chain, i + 1);
          return;
        }
        i := i + 1;
      }
      assert children[..i] == children;
    }

    /** The class's own pages (main.py:82-139), after its subclasses. */
    method WriteOwnPages(cfg: Config, node: ClassNode, chain: seq<string>)
      returns (failure: Option<PageError>)
      requires chain != []
      modifies this
      ensures written == old(written) + OwnPages(cfg, node, chain).writes
      ensures failure == OwnPages(cfg, node, chain).failure
      decreases node, 0
    {
      var classname := chain[0];
      if !Accepts(cfg.templates, classname) {
        return None;
      }

      var found, layout := FindClassLayout(chain, cfg.layouts);
      if !found {
        written := written + [Write(ClassPath(classname), classname, None)];
        return Some(LayoutUnbound(classname));
      }
      var page := ClassPage(classname, Flavor, chain, layout, ClassPermalink(classname));
      written := written + [Write(ClassPath(classname), classname, Some(page))];

      layout := FindInstanceLayout(chain, cfg.layouts, layout);
      failure := WriteInstancePages(cfg, chain, layout, node.instances);
    }

    /** The loop over `uclass.instances.items()` (main.py:124-139). */
    method WriteInstancePages(cfg: Config, chain: seq<string>, layout: string, entries: seq<Entry>)
      returns (failure: Option<PageError>)
      requires chain != []
      modifies this
      ensures written == old(written) + InstancePages(cfg, chain, layout, entries).writes
      ensures failure == InstancePages(cfg, chain, layout, entries).failure
    {
      var classname := chain[0];
      var j := 0;
      while j < |entries|
        invariant 0 <= j <= |entries|
        invariant InstancePages(cfg, chain, layout, entries[..j]).failure.None?
        invariant written == old(written) + InstancePages(cfg, chain, layout, entries[..j]).writes
      {
        ghost var pre := InstancePages(cfg, chain, layout, entries[..j]);
        assert entries[..j + 1][..j] == entries[..j];
        assert entries[..j + 1][j] == entries[j];
        var e := entries[j];
        var path := InstancePath(classname, e.dataname);
        var title := PageTitle(chain, e, cfg.table, cfg.rewards);
        if title.Err? {
          written := written + [Write(path, classname, None)];
          assert InstancePages(cfg, chain, layout, entries[..j + 1])
              == Outcome(pre.writes + [Write(path, classname, None)],
                         Some(TitleFailed(classname, e.dataname, title.error)));
          InstancePagesStops(cfg, chain, layout, entries, j + 1);
          return Some(TitleFailed(classname, e.dataname, title.error));
        }
        var page := InstancePage(title.value, Flavor, chain, e.dataname, layout,
                                 InstancePermalink(classname, e.dataname));
        written := written + [Write(path, classname, Some(page))];
        assert InstancePages(cfg, chain, layout, entries[..j + 1])
            == Outcome(pre.writes + [Write(path, classname, Some(page))], None);
        j := j + 1;
      }
      assert entries[..j] == entries;
      return None;
    }
  }
}
