/** The quotes pass (cdeck/passes/quotes.hpp): every anonymous quote becomes a
    named function at the end of the program, and the place where the quote
    stood becomes an ADDR of that name.

    What the pass computes is stated on the tree a tape spells out
    (`LowerNode`); the methods walk and rewrite the flat tape as the source
    does and are proved to produce the flattening of that tree. */
module Quotes {
  import opened Symbols
  import opened Tape

  // ---------------------------------------------------------------------
  // Generated names: "___fn_" followed by std::to_string of the id.

  /** The decimal digit `d`. */
  function DigitChar(d: nat): (ch: char)
    requires d < 10
    ensures '0' <= ch <= '9' && ch as int - '0' as int == d
  {
    ('0' as int + d) as char
  }

  /** std::to_string of an unsigned value: its decimal digits, most
      significant first, without leading zeros. */
  function Digits(n: nat): (s: string)
    ensures 1 <= |s| && (n >= 10 <==> |s| >= 2)
    ensures forall k :: 0 <= k < |s| ==> '0' <= s[k] <= '9'
    ensures s[0] == '0' ==> n == 0
  {
    if n < 10 then [DigitChar(n)] else Digits(n / 10) + [DigitChar(n % 10)]
  }

  /** Reading decimal digits back; the partner of `Digits`. */
  function DecimalValue(s: string): nat
  {
    if s == [] then 0
    else 10 * DecimalValue(s[..|s| - 1]) + (if '0' <= s[|s| - 1] <= '9' then s[|s| - 1] as int - '0' as int else 0)
  }

  lemma {:induction false} DigitsRoundTrip(n: nat)
    ensures DecimalValue(Digits(n)) == n
    decreases n
  {
    var s := Digits(n);
    if n >= 10 {
      DigitsRoundTrip(n / 10);
      assert s[..|s| - 1] == Digits(n / 10);
    } else {
      assert s[..|s| - 1] == [];
    }
  }

  /** The name given to the quote that receives id `id`. */
  function QuoteName(id: nat): string
  {
    "___fn_" + Digits(id)
  }

  /** Different ids give different names. */
  lemma QuoteNameInjective(a: nat, b: nat)
    ensures QuoteName(a) == QuoteName(b) <==> a == b
  {
    if QuoteName(a) == QuoteName(b) {
      assert Digits(a) == QuoteName(a)[6..];
      assert Digits(b) == QuoteName(b)[6..];
      DigitsRoundTrip(a);
      DigitsRoundTrip(b);
    }
  }

  /** The names interned for the ids `from` up to, not including, `to`. */
  function Names(from: nat, to: nat): (r: seq<string>)
    ensures |r| == (if from <= to then to - from else 0)
    decreases if from <= to then to - from else 0
  {
    if to <= from then [] else [QuoteName(from)] + Names(from + 1, to)
  }

  lemma {:induction false} NamesElem(from: nat, to: nat, k: nat)
    requires k < |Names(from, to)|
    ensures Names(from, to)[k] == QuoteName(from + k)
    decreases if from <= to then to - from else 0
  {
    if k > 0 {
      NamesElem(from + 1, to, k - 1);
    }
  }

  /** The interned names are pairwise distinct. */
  lemma NamesNoDup(from: nat, to: nat)
    ensures NoDup(Names(from, to))
  {
    var r := Names(from, to);
    forall a, b | 0 <= a < b < |r| ensures r[a] != r[b] {
      NamesElem(from, to, a);
      NamesElem(from, to, b);
      QuoteNameInjective(from + a, from + b);
    }
  }

  lemma {:induction false} NamesAppend(a: nat, b: nat, c: nat)
    requires a <= b <= c
    ensures Names(a, b) + Names(b, c) == Names(a, c)
    decreases b - a
  {
    if a < b {
      NamesAppend(a + 1, b, c);
      assert [QuoteName(a)] + Names(a + 1, b) + Names(b, c) == [QuoteName(a)] + (Names(a + 1, b) + Names(b, c));
    } else {
      assert Names(a, b) == [];
    }
  }

  // ---------------------------------------------------------------------
  // What the pass does to a tree.

  /** A node after lowering: what stays where the node stood, the functions
      moved in front of the tape's last symbol, and the next free id. */
  datatype Lowered = Lowered(site: Node, hoisted: seq<Node>, next: nat)

  /** The same for a run of nodes. */
  datatype Lowering = Lowering(sites: seq<Node>, hoisted: seq<Node>, next: nat)

  /** The FN block a quote becomes: its opener and its END carry the name. */
  function Hoist(name: string, body: seq<Node>): Node
  {
    Block(Symbol(Fn, name), body, Symbol(End, name))
  }

  /** quotes_visit on a node, with `id` the value of intern_id before. A
      quote takes the id, then lowers its body; its site becomes one ADDR
      and its lowered body follows the functions hoisted out of it. The
      other blocks keep their place and lower their body. */
  function LowerNode(n: Node, id: nat): (r: Lowered)
    ensures id <= r.next
    decreases n
  {
    match n
    case Leaf(_) => Lowered(n, [], id)
    case Block(o, kids, c) =>
      if o.kind == Quote then
        var name := QuoteName(id);
        var body := LowerNodes(kids, id + 1);
        Lowered(Leaf(Symbol(Addr, name)), body.hoisted + [Hoist(name, body.sites)], body.next)
      else
        var body := LowerNodes(kids, id);
        Lowered(Block(o, body.sites, c), body.hoisted, body.next)
  }

  /** visit_block over a run of nodes: each is lowered in turn, and what
      each hoists lands after what the ones before it hoisted. */
  function LowerNodes(ns: seq<Node>, id: nat): (r: Lowering)
    ensures id <= r.next && |r.sites| == |ns|
    decreases ns
  {
    if ns == [] then Lowering([], [], id)
    else
      var a := LowerNode(ns[0], id);
      var b := LowerNodes(ns[1..], a.next);
      Lowering([a.site] + b.sites, a.hoisted + b.hoisted, b.next)
  }

  /** quotes on a whole tape rooted at `n`: the hoisted functions end up in
      front of the root's END, that is after the root's own items. */
  function LowerProgram(n: Node, id: nat): Lowered
  {
    match n
    case Leaf(_) => Lowered(n, [], id)
    case Block(o, kids, c) =>
      var body := LowerNodes(kids, id);
      Lowered(Block(o, body.sites + body.hoisted, c), [], body.next)
  }

  /** The number of quotes of a node. */
  function Quotes(n: Node): nat
  {
    CountKind(Flatten(n), Quote)
  }

  function QuotesAll(ns: seq<Node>): nat
  {
    CountKind(FlattenAll(ns), Quote)
  }

  // ---------------------------------------------------------------------
  // Properties of the lowering.

  /** Every quote takes exactly one id. */
  lemma {:induction false} LowerNext(n: Node, id: nat)
    requires WF(n)
    ensures LowerNode(n, id).next == id + Quotes(n)
    decreases n
  {
    match n
    case Leaf(s) =>
      CountOne(s, Quote);
    case Block(o, kids, c) =>
      CountBlock(o, kids, c, Quote);
      CountOne(o, Quote);
      CountOne(c, Quote);
      if o.kind == Quote {
        LowerNodesNext(kids, id + 1);
      } else {
        LowerNodesNext(kids, id);
      }
  }

  lemma {:induction false} LowerNodesNext(ns: seq<Node>, id: nat)
    requires WFAll(ns)
    ensures LowerNodes(ns, id).next == id + QuotesAll(ns)
    decreases ns
  {
    if ns != [] {
      CountCons(ns, Quote);
      LowerNext(ns[0], id);
      LowerNodesNext(ns[1..], LowerNode(ns[0], id).next);
    }
  }

  /** Lowering keeps nodes well formed: the tape stays balanced. */
  lemma {:induction false} LowerWF(n: Node, id: nat)
    requires WF(n)
    ensures WF(LowerNode(n, id).site) && WFAll(LowerNode(n, id).hoisted)
    decreases n, 1
  {
    if n.Block? {
      if n.open.kind == Quote {
        QuoteWF(n, id);
      } else {
        OpenWF(n, id);
      }
    }
  }

  lemma {:induction false} QuoteWF(n: Node, id: nat)
    requires WF(n) && n.Block? && n.open.kind == Quote
    ensures WF(LowerNode(n, id).site) && WFAll(LowerNode(n, id).hoisted)
    decreases n, 0
  {
    var body := LowerNodes(n.kids, id + 1);
    LowerNodesWF(n.kids, id + 1);
    HoistWF(body.hoisted, QuoteName(id), body.sites);
  }

  lemma {:induction false} OpenWF(n: Node, id: nat)
    requires WF(n) && n.Block? && n.open.kind != Quote
    ensures WF(LowerNode(n, id).site) && WFAll(LowerNode(n, id).hoisted)
    decreases n, 0
  {
    LowerNodesWF(n.kids, id);
  }

  /** A function hoisted behind well-formed ones, with a well-formed body. */
  lemma HoistWF(hs: seq<Node>, name: string, sites: seq<Node>)
    requires WFAll(hs) && WFAll(sites)
    ensures WFAll(hs + [Hoist(name, sites)])
  {
    var h := Hoist(name, sites);
    assert WF(h);
    assert WFAll([h]) by {
      assert [h][1..] == [];
    }
    FlattenAllAppend(hs, [h]);
  }

  lemma {:induction false} LowerNodesWF(ns: seq<Node>, id: nat)
    requires WFAll(ns)
    ensures WFAll(LowerNodes(ns, id).sites) && WFAll(LowerNodes(ns, id).hoisted)
    decreases ns, 2
  {
    if ns != [] {
      var a := LowerNode(ns[0], id);
      var b := LowerNodes(ns[1..], a.next);
      LowerWF(ns[0], id);
      LowerNodesWF(ns[1..], a.next);
      FlattenAllAppend(a.hoisted, b.hoisted);
      assert ([a.site] + b.sites)[0] == a.site && ([a.site] + b.sites)[1..] == b.sites;
    }
  }

  /** What a kind gains and loses per quote: the site becomes an ADDR and
      the opener an FN, and the QUOTE symbol is gone; nothing else is
      created or dropped. */
  function Gain(k: Kind, q: nat): nat
  {
    if k == Addr || k == Fn then q else 0
  }

  function Loss(k: Kind, q: nat): nat
  {
    if k == Quote then q else 0
  }

  /** Lowering only moves and retags symbols, and adds one ADDR per quote. */
  lemma {:induction false} LowerCounts(n: Node, id: nat, k: Kind)
    requires WF(n)
    ensures var r := LowerNode(n, id);
      CountKind(Flatten(r.site), k) + CountKind(FlattenAll(r.hoisted), k) + Loss(k, Quotes(n))
      == CountKind(Flatten(n), k) + Gain(k, Quotes(n))
    decreases n, 1
  {
    match n
    case Leaf(s) =>
      CountOne(s, Quote);
    case Block(o, kids, c) =>
      CountBlock(o, kids, c, k);
      CountBlock(o, kids, c, Quote);
      CountOne(o, k);
      CountOne(c, k);
      CountOne(o, Quote);
      CountOne(c, Quote);
      if o.kind == Quote {
        QuoteCounts(n, id, k);
      } else {
        var body := LowerNodes(kids, id);
        LowerNodesCounts(kids, id, k);
        CountBlock(o, body.sites, c, k);
      }
  }

  /** The quote case of LowerCounts. */
  lemma {:induction false} QuoteCounts(n: Node, id: nat, k: Kind)
    requires WF(n) && n.Block? && n.open.kind == Quote
    ensures var r := LowerNode(n, id);
      CountKind(Flatten(r.site), k) + CountKind(FlattenAll(r.hoisted), k) + Loss(k, Quotes(n))
      == CountKind(Flatten(n), k) + Gain(k, Quotes(n))
    decreases n, 0
  {
    var name := QuoteName(id);
    var body := LowerNodes(n.kids, id + 1);
    var r := LowerNode(n, id);
    assert r.site == Leaf(Symbol(Addr, name)) && r.hoisted == body.hoisted + [Hoist(name, body.sites)];
    var q0 := QuotesAll(n.kids);
    var ck, cs, ch := CountKind(FlattenAll(n.kids), k), CountKind(FlattenAll(body.sites), k), CountKind(FlattenAll(body.hoisted), k);
    LowerNodesCounts(n.kids, id + 1, k);
    QuoteBlockCount(n, k);
    QuoteBlockCount(n, Quote);
    CountOne(Symbol(Addr, name), k);
    HoistCount(name, body.sites, body.hoisted, k);
    CountArith(k, q0, ck, cs, ch);
  }

  lemma CountArith(k: Kind, q0: nat, ck: nat, cs: nat, ch: nat)
    requires cs + ch + Loss(k, q0) == ck + Gain(k, q0)
    ensures (if k == Addr then 1 else 0) + (ch + (if k == Fn then 1 else 0) + cs + (if k == End then 1 else 0))
            + Loss(k, 1 + q0)
         == (if k == Quote then 1 else 0) + ck + (if k == End then 1 else 0) + Gain(k, 1 + q0)
  {
  }

  lemma QuoteBlockCount(n: Node, k: Kind)
    requires WF(n) && n.Block? && n.open.kind == Quote
    ensures CountKind(Flatten(n), k)
         == (if k == Quote then 1 else 0) + CountKind(FlattenAll(n.kids), k) + (if k == End then 1 else 0)
  {
    CountBlock(n.open, n.kids, n.close, k);
    CountOne(n.open, k);
    CountOne(n.close, k);
  }

  lemma HoistCount(name: string, sites: seq<Node>, hoisted: seq<Node>, k: Kind)
    ensures CountKind(FlattenAll(hoisted + [Hoist(name, sites)]), k)
         == CountKind(FlattenAll(hoisted), k) + (if k == Fn then 1 else 0)
            + CountKind(FlattenAll(sites), k) + (if k == End then 1 else 0)
  {
    var h := Hoist(name, sites);
    CountBlock(Symbol(Fn, name), sites, Symbol(End, name), k);
    CountOne(Symbol(Fn, name), k);
    CountOne(Symbol(End, name), k);
    CountAll(hoisted, [h], k);
    assert FlattenAll([h]) == Flatten(h) by {
      assert [h][1..] == [];
    }
  }

  lemma {:induction false} LowerNodesCounts(ns: seq<Node>, id: nat, k: Kind)
    requires WFAll(ns)
    ensures var r := LowerNodes(ns, id);
      CountKind(FlattenAll(r.sites), k) + CountKind(FlattenAll(r.hoisted), k) + Loss(k, QuotesAll(ns))
      == CountKind(FlattenAll(ns), k) + Gain(k, QuotesAll(ns))
    decreases ns, 2
  {
    if ns == [] {
    } else {
      var a := LowerNode(ns[0], id);
      var b := LowerNodes(ns[1..], a.next);
      LowerCounts(ns[0], id, k);
      LowerNodesCounts(ns[1..], a.next, k);
      CountCons(ns, k);
      CountCons(ns, Quote);
      CountAll([a.site], b.sites, k);
      CountAll(a.hoisted, b.hoisted, k);
      assert FlattenAll([a.site]) == Flatten(a.site) by {
        assert [a.site][1..] == [];
      }
    }
  }

  /** No QUOTE is left, neither in place nor among the hoisted functions. */
  lemma LowerQuoteFree(n: Node, id: nat)
    requires WF(n)
    ensures Quotes(LowerNode(n, id).site) == 0 && QuotesAll(LowerNode(n, id).hoisted) == 0
  {
    LowerCounts(n, id, Quote);
  }

  lemma LowerNodesQuoteFree(ns: seq<Node>, id: nat)
    requires WFAll(ns)
    ensures QuotesAll(LowerNodes(ns, id).sites) == 0 && QuotesAll(LowerNodes(ns, id).hoisted) == 0
  {
    LowerNodesCounts(ns, id, Quote);
  }

  /** The tape grows by exactly one symbol per quote: the inserted copy. */
  lemma {:induction false} LowerLength(n: Node, id: nat)
    requires WF(n)
    ensures |Flatten(LowerNode(n, id).site)| + |FlattenAll(LowerNode(n, id).hoisted)| == |Flatten(n)| + Quotes(n)
    decreases n
  {
    match n
    case Leaf(s) =>
      CountOne(s, Quote);
    case Block(o, kids, c) =>
      CountBlock(o, kids, c, Quote);
      CountOne(o, Quote);
      CountOne(c, Quote);
      if o.kind == Quote {
        var name := QuoteName(id);
        var body := LowerNodes(kids, id + 1);
        LowerNodesLength(kids, id + 1);
        FlattenAllSnoc(body.hoisted, Hoist(name, body.sites));
      } else {
        LowerNodesLength(kids, id);
      }
  }

  lemma {:induction false} LowerNodesLength(ns: seq<Node>, id: nat)
    requires WFAll(ns)
    ensures |FlattenAll(LowerNodes(ns, id).sites)| + |FlattenAll(LowerNodes(ns, id).hoisted)| == |FlattenAll(ns)| + QuotesAll(ns)
    decreases ns
  {
    if ns != [] {
      var a := LowerNode(ns[0], id);
      var b := LowerNodes(ns[1..], a.next);
      LowerLength(ns[0], id);
      LowerNodesLength(ns[1..], a.next);
      CountCons(ns, Quote);
      FlattenAllAppend([a.site], b.sites);
      FlattenAllAppend(a.hoisted, b.hoisted);
      assert FlattenAll([a.site]) == Flatten(a.site) by {
        assert [a.site][1..] == [];
      }
    }
  }

  /** A node without quotes is left exactly as it is. */
  lemma {:induction false} LowerIdentity(n: Node, id: nat)
    requires Quotes(n) == 0
    ensures LowerNode(n, id) == Lowered(n, [], id)
    decreases n
  {
    match n
    case Leaf(_) =>
    case Block(o, kids, c) =>
      CountBlock(o, kids, c, Quote);
      CountOne(o, Quote);
      LowerNodesIdentity(kids, id);
  }

  lemma {:induction false} LowerNodesIdentity(ns: seq<Node>, id: nat)
    requires QuotesAll(ns) == 0
    ensures LowerNodes(ns, id) == Lowering(ns, [], id)
    decreases ns
  {
    if ns != [] {
      CountCons(ns, Quote);
      LowerIdentity(ns[0], id);
      LowerNodesIdentity(ns[1..], id);
      assert [ns[0]] + ns[1..] == ns;
    }
  }

  /** The symbol a node starts with. */
  function Head(n: Node): Symbol
  {
    if n.Leaf? then n.sym else n.open
  }

  /** A hoisted function: FN name, a body without quotes, END name. */
  predicate IsHoisted(h: Node)
  {
    h.Block? && h.open.kind == Fn && h.close == Symbol(End, h.open.text) && QuotesAll(h.kids) == 0
  }

  /** The names the hoisted functions are defined under, in tape order. */
  function HoistedNames(hs: seq<Node>): seq<string>
  {
    if hs == [] then [] else [Head(hs[0]).text] + HoistedNames(hs[1..])
  }

  lemma {:induction false} HoistedNamesAppend(a: seq<Node>, b: seq<Node>)
    ensures HoistedNames(a + b) == HoistedNames(a) + HoistedNames(b)
    decreases |a|
  {
    if a == [] {
      assert a + b == b;
    } else {
      assert (a + b)[0] == a[0];
      assert (a + b)[1..] == a[1..] + b;
      HoistedNamesAppend(a[1..], b);
    }
  }

  /** Every hoisted block is a named FN without quotes, and the hoisted
      functions are named by exactly the names interned meanwhile, each once. */
  lemma {:induction false} LowerHoisted(n: Node, id: nat)
    requires WF(n)
    ensures var r := LowerNode(n, id);
      (forall h | h in r.hoisted :: IsHoisted(h))
      && multiset(HoistedNames(r.hoisted)) == multiset(Names(id, r.next))
    decreases n, 1
  {
    match n
    case Leaf(_) =>
      assert Names(id, id) == [];
    case Block(o, kids, c) =>
      if o.kind == Quote {
        QuoteHoistedNames(n, id);
      } else {
        LowerNodesHoisted(kids, id);
      }
  }

  /** A quote hoists the functions of its body, then itself as a function
      named by its own id. */
  lemma {:induction false} QuoteHoistedNames(n: Node, id: nat)
    requires WF(n) && n.Block? && n.open.kind == Quote
    ensures var r := LowerNode(n, id);
      (forall h | h in r.hoisted :: IsHoisted(h))
      && multiset(HoistedNames(r.hoisted)) == multiset(Names(id, r.next))
    decreases n, 0
  {
    var name := QuoteName(id);
    var body := LowerNodes(n.kids, id + 1);
    LowerNodesHoisted(n.kids, id + 1);
    LowerNodesQuoteFree(n.kids, id + 1);
    HoistLast(body.hoisted, Hoist(name, body.sites), id, body.next);
  }

  /** One more hoisted function, named by `id`, after those named by the
      ids from `id + 1` on. */
  lemma HoistLast(hs: seq<Node>, h: Node, id: nat, next: nat)
    requires forall x | x in hs :: IsHoisted(x)
    requires multiset(HoistedNames(hs)) == multiset(Names(id + 1, next))
    requires h.Block? && h == Hoist(QuoteName(id), h.kids) && QuotesAll(h.kids) == 0 && id + 1 <= next
    ensures forall x | x in hs + [h] :: IsHoisted(x)
    ensures multiset(HoistedNames(hs + [h])) == multiset(Names(id, next))
  {
    HoistedNamesAppend(hs, [h]);
    assert HoistedNames([h]) == [QuoteName(id)] by {
      assert [h][1..] == [];
    }
    assert Names(id, next) == [QuoteName(id)] + Names(id + 1, next);
  }

  lemma {:induction false} LowerNodesHoisted(ns: seq<Node>, id: nat)
    requires WFAll(ns)
    ensures var r := LowerNodes(ns, id);
      (forall h | h in r.hoisted :: IsHoisted(h))
      && multiset(HoistedNames(r.hoisted)) == multiset(Names(id, r.next))
    decreases ns, 2
  {
    if ns == [] {
      assert Names(id, id) == [];
    } else {
      var a := LowerNode(ns[0], id);
      var b := LowerNodes(ns[1..], a.next);
      LowerHoisted(ns[0], id);
      LowerNodesHoisted(ns[1..], a.next);
      HoistedNamesAppend(a.hoisted, b.hoisted);
      NamesAppend(id, a.next, b.next);
    }
  }

  // ---------------------------------------------------------------------
  // The root's walk.

  /** Lowering a node that has quotes leaves fewer quotes to walk; one that
      has none hoists nothing. */
  lemma RunShrinks(todo: seq<Node>, id: nat)
    requires WFAll(todo) && todo != []
    ensures var rest := todo[1..] + LowerNode(todo[0], id).hoisted;
      WFAll(rest)
      && (QuotesAll(rest) < QuotesAll(todo) || (QuotesAll(rest) == QuotesAll(todo) && |rest| < |todo|))
  {
    var a := LowerNode(todo[0], id);
    LowerWF(todo[0], id);
    LowerQuoteFree(todo[0], id);
    FlattenAllAppend(todo[1..], a.hoisted);
    CountAll(todo[1..], a.hoisted, Quote);
    CountCons(todo, Quote);
    if Quotes(todo[0]) == 0 {
      LowerIdentity(todo[0], id);
      assert todo[1..] + a.hoisted == todo[1..];
    }
  }

  /** The root's visit_block: it walks the root's items and then, since they
      sit in front of the root's END, the functions hoisted on the way. */
  ghost function LowerRun(todo: seq<Node>, id: nat): (r: Lowering)
    requires WFAll(todo)
    decreases QuotesAll(todo), |todo|
  {
    if todo == [] then Lowering([], [], id)
    else
      var a := LowerNode(todo[0], id);
      RunShrinks(todo, id);
      var b := LowerRun(todo[1..] + a.hoisted, a.next);
      Lowering([a.site] + b.sites, [], b.next)
  }

  /** Walking functions without quotes changes nothing. */
  lemma {:induction false} RunIdentity(hs: seq<Node>, id: nat)
    requires WFAll(hs) && QuotesAll(hs) == 0
    ensures LowerRun(hs, id) == Lowering(hs, [], id)
    decreases |hs|
  {
    if hs != [] {
      CountCons(hs, Quote);
      LowerIdentity(hs[0], id);
      assert hs[1..] + [] == hs[1..];
      RunIdentity(hs[1..], id);
      assert [hs[0]] + hs[1..] == hs;
    }
  }

  /** The root's walk ends with its lowered items followed by everything
      hoisted, in the order LowerNodes states. */
  lemma {:induction false} RunIsLower(todo: seq<Node>, hq: seq<Node>, id: nat)
    requires WFAll(todo) && WFAll(hq) && QuotesAll(hq) == 0
    ensures WFAll(todo + hq)
    ensures var l := LowerNodes(todo, id);
      LowerRun(todo + hq, id) == Lowering(l.sites + hq + l.hoisted, [], l.next)
    decreases |todo|
  {
    FlattenAllAppend(todo, hq);
    if todo == [] {
      assert todo + hq == hq;
      RunIdentity(hq, id);
      assert hq + [] == hq;
    } else {
      var a := LowerNode(todo[0], id);
      LowerWF(todo[0], id);
      LowerQuoteFree(todo[0], id);
      FlattenAllAppend(hq, a.hoisted);
      CountAll(hq, a.hoisted, Quote);
      RunIsLower(todo[1..], hq + a.hoisted, a.next);
      RunStep(todo, hq, id);
    }
  }

  /** The step of RunIsLower, given what it states for the rest of the walk. */
  lemma RunStep(todo: seq<Node>, hq: seq<Node>, id: nat)
    requires WFAll(todo) && WFAll(hq) && todo != [] && WFAll(todo + hq)
    requires var a := LowerNode(todo[0], id);
      var b := LowerNodes(todo[1..], a.next);
      WFAll(todo[1..] + (hq + a.hoisted))
      && LowerRun(todo[1..] + (hq + a.hoisted), a.next) == Lowering(b.sites + (hq + a.hoisted) + b.hoisted, [], b.next)
    ensures var l := LowerNodes(todo, id);
      LowerRun(todo + hq, id) == Lowering(l.sites + hq + l.hoisted, [], l.next)
  {
    var a := LowerNode(todo[0], id);
    var rest := todo[1..];
    var hq' := hq + a.hoisted;
    var b := LowerNodes(rest, a.next);
    assert LowerNodes(todo, id) == Lowering([a.site] + b.sites, a.hoisted + b.hoisted, b.next);
    ConsTail(todo, hq, a.hoisted);
    RunCons(todo + hq, id);
    Regroup([a.site], b.sites, hq, a.hoisted, b.hoisted);
  }

  lemma ConsTail<T>(s: seq<T>, u: seq<T>, v: seq<T>)
    requires s != []
    ensures (s + u)[0] == s[0] && (s + u)[1..] + v == s[1..] + (u + v)
  {
    assert (s + u)[1..] == s[1..] + u;
  }

  lemma Regroup<T>(x: seq<T>, s: seq<T>, h: seq<T>, a: seq<T>, b: seq<T>)
    ensures x + (s + (h + a) + b) == (x + s) + h + (a + b)
  {
  }

  lemma RunCons(todo: seq<Node>, id: nat)
    requires WFAll(todo) && todo != []
    ensures var a := LowerNode(todo[0], id);
      WFAll(todo[1..] + a.hoisted)
      && LowerRun(todo, id) == Lowering([a.site] + LowerRun(todo[1..] + a.hoisted, a.next).sites, [],
                                        LowerRun(todo[1..] + a.hoisted, a.next).next)
  {
    RunShrinks(todo, id);
  }

  /** What the whole pass guarantees: the tape is still balanced, no QUOTE
      is left, the tape grew by one symbol per quote, the first and last
      symbols stay in place, every quote took one id, and a program without
      quotes is unchanged. */
  lemma LowerProgramProps(n: Node, id: nat)
    requires WF(n) && (n.Block? ==> n.open.kind != Quote)
    ensures var r := LowerProgram(n, id);
      WF(r.site) && Quotes(r.site) == 0
      && |Flatten(r.site)| == |Flatten(n)| + Quotes(n)
      && Flatten(r.site)[0] == Flatten(n)[0]
      && Flatten(r.site)[|Flatten(r.site)| - 1] == Flatten(n)[|Flatten(n)| - 1]
      && r.next == id + Quotes(n)
      && (Quotes(n) == 0 ==> r.site == n)
  {
    LowerProgramClean(n, id);
    LowerProgramSize(n, id);
    if n.Block? {
      var body := LowerNodes(n.kids, id);
      assert Flatten(LowerProgram(n, id).site) == [n.open] + FlattenAll(body.sites + body.hoisted) + [n.close];
    }
    if Quotes(n) == 0 {
      LowerProgramIdentity(n, id);
    }
  }

  /** The lowered program is well formed and holds no QUOTE. */
  lemma LowerProgramClean(n: Node, id: nat)
    requires WF(n) && (n.Block? ==> n.open.kind != Quote)
    ensures WF(LowerProgram(n, id).site) && Quotes(LowerProgram(n, id).site) == 0
  {
    match n
    case Leaf(s) =>
      assert Flatten(n) == [s];
      CountOne(s, Quote);
    case Block(o, kids, c) =>
      var body := LowerNodes(kids, id);
      LowerNodesWF(kids, id);
      FlattenAllAppend(body.sites, body.hoisted);
      BlockQuoteFree(o, body.sites, body.hoisted, c, kids, id);
  }

  lemma BlockQuoteFree(o: Symbol, sites: seq<Node>, hoisted: seq<Node>, c: Symbol, kids: seq<Node>, id: nat)
    requires WFAll(kids) && o.kind != Quote && c.kind == End
    requires sites == LowerNodes(kids, id).sites && hoisted == LowerNodes(kids, id).hoisted
    ensures Quotes(Block(o, sites + hoisted, c)) == 0
  {
    LowerNodesQuoteFree(kids, id);
    CountAll(sites, hoisted, Quote);
    CountBlock(o, sites + hoisted, c, Quote);
    CountOne(o, Quote);
    CountOne(c, Quote);
  }

  /** The lowered program is one symbol longer per quote, and took one id
      per quote. */
  lemma LowerProgramSize(n: Node, id: nat)
    requires WF(n) && (n.Block? ==> n.open.kind != Quote)
    ensures |Flatten(LowerProgram(n, id).site)| == |Flatten(n)| + Quotes(n)
    ensures LowerProgram(n, id).next == id + Quotes(n)
  {
    match n
    case Leaf(s) =>
      CountOne(s, Quote);
    case Block(o, kids, c) =>
      var body := LowerNodes(kids, id);
      LowerNodesLength(kids, id);
      LowerNodesNext(kids, id);
      FlattenAllAppend(body.sites, body.hoisted);
      CountBlock(o, kids, c, Quote);
      CountOne(o, Quote);
      CountOne(c, Quote);
  }

  /** A program without quotes is left as it is. */
  lemma LowerProgramIdentity(n: Node, id: nat)
    requires Quotes(n) == 0
    ensures LowerProgram(n, id).site == n
  {
    if n.Block? {
      CountBlock(n.open, n.kids, n.close, Quote);
      LowerNodesIdentity(n.kids, id);
      assert n.kids + [] == n.kids;
    }
  }

  // ---------------------------------------------------------------------
  // The pass over the tape.

  /** quotes_visit on the item at `i`, which spells out `n`. The item ends
      before the tape's last symbol, in front of which the functions hoisted
      out of it are placed; the result is the position after its site. */
  method QuotesVisit(ctx: Context, t: seq<Symbol>, i: nat, ghost n: Node)
    returns (t': seq<Symbol>, r: nat, ghost l: Lowered)
    requires WF(n) && i + |Flatten(n)| < |t| && t[i..i + |Flatten(n)|] == Flatten(n)
    modifies ctx`intern, ctx`internId
    ensures l == LowerNode(n, old(ctx.internId))
    ensures t' == t[..i] + Flatten(l.site) + t[i + |Flatten(n)|..|t| - 1] + FlattenAll(l.hoisted) + [t[|t| - 1]]
      && r == i + |Flatten(l.site)|
      && ctx.internId == l.next && ctx.intern == old(ctx.intern) + Names(old(ctx.internId), l.next)
    decreases |Flatten(n)|, 1
  {
    NodeHead(n);
    assert t[i] == Flatten(n)[0];
    var current := t[i];
    if current.kind == Quote {
      t', r, l := QuoteVisit(ctx, t, i, n);
    } else if IsOpener(current.kind) {
      t', r, l := QuotesOpen(ctx, t, i, n);
    } else {
      t', r, l := t, i + 1, Lowered(n, [], ctx.internId);
      assert t[i + 1..|t| - 1] + FlattenAll([]) + [t[|t| - 1]] == t[i + 1..];
      assert Names(ctx.internId, ctx.internId) == [];
    }
  }

  /** The other openers, PROGRAM, MARK, LET and FN, only walk their body. */
  method QuotesOpen(ctx: Context, t: seq<Symbol>, i: nat, ghost n: Node)
    returns (t': seq<Symbol>, r: nat, ghost l: Lowered)
    requires WF(n) && n.Block? && n.open.kind != Quote
    requires i + |Flatten(n)| < |t| && t[i..i + |Flatten(n)|] == Flatten(n)
    modifies ctx`intern, ctx`internId
    ensures l == LowerNode(n, old(ctx.internId))
    ensures t' == t[..i] + Flatten(l.site) + t[i + |Flatten(n)|..|t| - 1] + FlattenAll(l.hoisted) + [t[|t| - 1]]
      && r == i + |Flatten(l.site)|
      && ctx.internId == l.next && ctx.intern == old(ctx.intern) + Names(old(ctx.internId), l.next)
    decreases |Flatten(n)|, 0
  {
    BlockInside(n, t, i);
    ghost var body: Lowering;
    t', r, body := QuotesBlock(ctx, t, i + 1, n.kids);
    Rewrapped(t, i, n.open, FlattenAll(n.kids), n.close, FlattenAll(body.sites), FlattenAll(body.hoisted), t');
    l := Lowered(Block(n.open, body.sites, n.close), body.hoisted, body.next);
  }

  /** std::rotate(first, middle, last) with `last` the tape's last symbol:
      the run from `first` to `middle` moves behind the run from `middle` on,
      and nothing else moves. */
  function RotateBack(s: seq<Symbol>, first: nat, middle: nat): (r: seq<Symbol>)
    requires first <= middle < |s|
    ensures |r| == |s| && r[..first] == s[..first] && r[|r| - 1] == s[|s| - 1]
  {
    s[..first] + s[middle..|s| - 1] + s[first..middle] + [s[|s| - 1]]
  }

  /** The rotation loses and duplicates nothing. */
  lemma RotateBackPermutes(s: seq<Symbol>, first: nat, middle: nat)
    requires first <= middle < |s|
    ensures multiset(RotateBack(s, first, middle)) == multiset(s)
  {
    var a, b, c, z := s[..first], s[first..middle], s[middle..|s| - 1], [s[|s| - 1]];
    assert s == a + b + c + z;
    assert RotateBack(s, first, middle) == a + c + b + z;
  }

  /** The moved run lands right in front of the last symbol, and what
      followed it comes right after `first`. */
  lemma RotateBackMoves(s: seq<Symbol>, first: nat, middle: nat)
    requires first <= middle < |s|
    ensures var r := RotateBack(s, first, middle);
      r[first + (|s| - 1 - middle)..|s| - 1] == s[first..middle]
      && r[first..first + (|s| - 1 - middle)] == s[middle..|s| - 1]
  {
    Swapped(s[..first], s[first..middle], s[middle..|s| - 1], [s[|s| - 1]]);
  }

  lemma Swapped<T>(a: seq<T>, b: seq<T>, c: seq<T>, z: seq<T>)
    ensures (a + c + b + z)[|a| + |c|..|a| + |c| + |b|] == b && (a + c + b + z)[|a|..|a| + |c|] == c
  {
    assert a + c + b + z == a + c + (b + z);
    assert a + c + b + z == a + (c + (b + z));
  }

  /** The QUOTE case of quotes_visit: the quote at `i` becomes an ADDR of a
      fresh name, and its lowered body, as an FN of that name, goes in front
      of the tape's last symbol. */
  method QuoteVisit(ctx: Context, t: seq<Symbol>, i: nat, ghost n: Node)
    returns (t': seq<Symbol>, r: nat, ghost l: Lowered)
    requires WF(n) && n.Block? && n.open.kind == Quote
    requires i + |Flatten(n)| < |t| && t[i..i + |Flatten(n)|] == Flatten(n)
    modifies ctx`intern, ctx`internId
    ensures l == LowerNode(n, old(ctx.internId))
    ensures t' == t[..i] + Flatten(l.site) + t[i + |Flatten(n)|..|t| - 1] + FlattenAll(l.hoisted) + [t[|t| - 1]]
      && r == i + |Flatten(l.site)|
      && ctx.internId == l.next && ctx.intern == old(ctx.intern) + Names(old(ctx.internId), l.next)
    decreases |Flatten(n)|, 0
  {
    // a unique name, and the QUOTE becomes an ADDR of it
    ghost var id := ctx.internId;
    var name := QuoteName(ctx.internId);
    ctx.intern := ctx.intern + [name];
    ctx.internId := ctx.internId + 1;
    var addr := Symbol(Addr, name);
    var t1 := InsertAddr(t, i, addr);
    ghost var kids2 := [Leaf(addr)] + n.kids;
    ghost var p := t[..i] + [addr];
    ghost var y0 := t[i + |Flatten(n)|..|t| - 1];
    QuoteEntry(t, i, n, addr, kids2, t1);
    ghost var intern1 := ctx.intern;
    ghost var walked: Lowering;
    t', walked := QuoteBody(ctx, t1, i + 1, name, p, addr, kids2, n.close, y0, t[|t| - 1]);
    QuoteDone(t, i, n, id, addr, name, kids2, walked, t', old(ctx.intern), intern1, ctx.intern);
    l := LowerNode(n, id);
    r := i + 1;
  }

  /** What the QUOTE case amounts to, once the body is walked and moved:
      the lowered node of the quote, its name interned. */
  lemma QuoteDone(t: seq<Symbol>, i: nat, n: Node, id: nat, addr: Symbol, name: string, kids2: seq<Node>,
                  walked: Lowering, t': seq<Symbol>, intern0: seq<string>, intern1: seq<string>, intern2: seq<string>)
    requires WF(n) && n.Block? && n.open.kind == Quote && name == QuoteName(id) && addr == Symbol(Addr, name)
    requires kids2 == [Leaf(addr)] + n.kids && walked == LowerNodes(kids2, id + 1) && |walked.sites| > 0
    requires i + |Flatten(n)| < |t|
    requires t' == (t[..i] + [addr]) + (t[i + |Flatten(n)|..|t| - 1] + FlattenAll(walked.hoisted))
                 + ([Symbol(Fn, name)] + FlattenAll(walked.sites[1..]) + [Symbol(End, name)]) + [t[|t| - 1]]
    requires intern1 == intern0 + [QuoteName(id)] && intern2 == intern1 + Names(id + 1, walked.next)
    ensures var l := LowerNode(n, id);
      t' == t[..i] + Flatten(l.site) + t[i + |Flatten(n)|..|t| - 1] + FlattenAll(l.hoisted) + [t[|t| - 1]]
      && |Flatten(l.site)| == 1 && walked.next == l.next && intern2 == intern0 + Names(id, l.next)
  {
    var body := Lowering(walked.sites[1..], walked.hoisted, walked.next);
    LowerNodesNext(kids2, id + 1);
    InternQuote(intern0, intern1, intern2, id, walked.next);
    QuoteHoisted(t, i, n, addr, name, body, t');
    QuoteLowered(n, id, addr, name, kids2, walked, body);
  }

  /** The rest of the QUOTE case, from the ADDR at `j`: visit_block walks the
      ADDR and the quote's body, then the walked run moves in front of the
      tape's last symbol and becomes the FN `name`. */
  method QuoteBody(ctx: Context, t1: seq<Symbol>, j: nat, name: string, ghost p: seq<Symbol>, ghost addr: Symbol,
                   ghost kids2: seq<Node>, ghost close: Symbol, ghost y0: seq<Symbol>, ghost last: Symbol)
    returns (t': seq<Symbol>, ghost walked: Lowering)
    requires WFAll(kids2) && |kids2| > 0 && kids2[0] == Leaf(addr) && addr.kind == Addr && close.kind == End
    requires t1 == p + FlattenAll(kids2) + ([close] + y0) + [last] && j == |p| && j > 0
    modifies ctx`intern, ctx`internId
    ensures walked == LowerNodes(kids2, old(ctx.internId)) && |walked.sites| > 0
    ensures t' == p + (y0 + FlattenAll(walked.hoisted))
                  + ([Symbol(Fn, name)] + FlattenAll(walked.sites[1..]) + [Symbol(End, name)]) + [last]
    ensures ctx.internId == walked.next && ctx.intern == old(ctx.intern) + Names(old(ctx.internId), walked.next)
    decreases |FlattenAll(kids2)|, 4
  {
    BodyParts(t1, p, FlattenAll(kids2), close, y0, last);
    var t2: seq<Symbol>, until: nat;
    t2, until, walked := QuotesBlock(ctx, t1, j, kids2);
    WalkHead(kids2, addr, old(ctx.internId), walked);
    BodyWalked(t1, p, FlattenAll(kids2), close, y0, last, addr, FlattenAll(walked.sites[1..]),
               FlattenAll(walked.hoisted), t2, until);
    // std::rotate(current, until, end - 1), then the FN and its END take the name
    t' := MoveToEnd(t2, j, until, name);
    Rotated(p, addr, FlattenAll(walked.sites[1..]), close, y0 + FlattenAll(walked.hoisted), last,
            name, t2, j, until, t');
  }

  /** The QUOTE at `i` is retagged to `addr`, then a copy of it is inserted
      in front of it. */
  method InsertAddr(t: seq<Symbol>, i: nat, addr: Symbol) returns (t1: seq<Symbol>)
    requires i < |t|
    ensures t1 == t[..i] + [addr, addr] + t[i + 1..]
  {
    t1 := t[i := addr];
    t1 := t1[..i] + [t1[i]] + t1[i..];
    assert t[i := addr][i..] == [addr] + t[i + 1..];
  }

  /** std::rotate(first, until, end - 1) moves the walked run from `first` to
      `until` in front of the tape's last symbol; then its first symbol becomes
      an FN of `name`, and its last symbol, the END, takes `name` too. */
  method MoveToEnd(t2: seq<Symbol>, first: nat, until: nat, name: string) returns (t': seq<Symbol>)
    requires first + 2 <= until < |t2|
    ensures t' == t2[..first] + t2[until..|t2| - 1] + ([Symbol(Fn, name)] + t2[first + 1..until - 1]
                  + [Symbol(t2[until - 1].kind, name)]) + [t2[|t2| - 1]]
  {
    var length := until - first;
    var t3 := RotateBack(t2, first, until);
    var head := |t3| - 1 - length;
    var tail := head + length - 1;
    var t4 := t3[head := Symbol(Fn, name)];
    t' := t4[tail := Symbol(t4[tail].kind, name)];
    Retagged(t2[..first] + t2[until..|t2| - 1], t2[first..until], t2[|t2| - 1], t3, head, tail, t4, name, t');
  }

  /** Retagging the first and the last symbol of the run `x` that sits in
      front of the last symbol. */
  lemma Retagged(p: seq<Symbol>, x: seq<Symbol>, last: Symbol, t3: seq<Symbol>, head: int, tail: int,
                 t4: seq<Symbol>, name: string, t': seq<Symbol>)
    requires |x| >= 2 && t3 == p + x + [last] && head == |p| && tail == head + |x| - 1
    requires t4 == t3[head := Symbol(Fn, name)] && t' == t4[tail := Symbol(t4[tail].kind, name)]
    ensures t' == p + ([Symbol(Fn, name)] + x[1..|x| - 1] + [Symbol(x[|x| - 1].kind, name)]) + [last]
  {
    assert t4[tail] == x[|x| - 1];
  }

  /** The tape once the QUOTE is an ADDR and a copy of it is inserted: the
      copy, then the quote's body, then its END. */
  lemma QuoteEntry(t: seq<Symbol>, i: nat, n: Node, addr: Symbol, kids2: seq<Node>, t1: seq<Symbol>)
    requires WF(n) && n.Block? && addr.kind == Addr && kids2 == [Leaf(addr)] + n.kids
    requires i + |Flatten(n)| < |t| && t[i..i + |Flatten(n)|] == Flatten(n)
    requires t1 == t[..i] + [addr, addr] + t[i + 1..]
    ensures WFAll(kids2) && |kids2| > 0 && kids2[0] == Leaf(addr) && n.close.kind == End
    ensures |FlattenAll(kids2)| < |Flatten(n)|
    ensures t1 == (t[..i] + [addr]) + FlattenAll(kids2) + ([n.close] + t[i + |Flatten(n)|..|t| - 1]) + [t[|t| - 1]]
  {
    var f := FlattenAll(n.kids);
    assert Flatten(n) == [n.open] + f + [n.close];
    Inserted(t, i, n.open, f, n.close, addr, t1);
    QuoteKids(addr, n.kids, 0);
  }

  /** Where visit_block finds the body and its END. */
  lemma BodyParts(t1: seq<Symbol>, p: seq<Symbol>, f: seq<Symbol>, close: Symbol, y0: seq<Symbol>, last: Symbol)
    requires t1 == p + f + ([close] + y0) + [last]
    ensures |p| + |f| < |t1| - 1 && t1[|p|..|p| + |f|] == f && t1[|p| + |f|] == close
    ensures t1[..|p|] == p && t1[|p| + |f|..|t1| - 1] == [close] + y0 && t1[|t1| - 1] == last
  {
    Parts(t1, p, f, [close] + y0, last);
  }

  /** The walk over the ADDR and the body keeps the ADDR in front. */
  lemma WalkHead(kids2: seq<Node>, addr: Symbol, id: nat, walked: Lowering)
    requires |kids2| > 0 && kids2[0] == Leaf(addr) && walked == LowerNodes(kids2, id)
    ensures |walked.sites| > 0 && FlattenAll(walked.sites) == [addr] + FlattenAll(walked.sites[1..])
  {
    assert walked.sites[0] == Leaf(addr);
    assert walked.sites == [walked.sites[0]] + walked.sites[1..];
    FlattenAllAppend([walked.sites[0]], walked.sites[1..]);
    assert FlattenAll([walked.sites[0]]) == [addr];
  }

  /** The tape after the walk, in the parts std::rotate moves. */
  lemma BodyWalked(t1: seq<Symbol>, p: seq<Symbol>, f: seq<Symbol>, close: Symbol, y0: seq<Symbol>, last: Symbol,
                   addr: Symbol, s: seq<Symbol>, hh: seq<Symbol>, t2: seq<Symbol>, until: nat)
    requires t1 == p + f + ([close] + y0) + [last] && |p| > 0
    requires t2 == t1[..|p|] + ([addr] + s) + t1[|p| + |f|..|t1| - 1] + hh + [t1[|t1| - 1]]
    requires until == |p| + |[addr] + s| + 1
    ensures t2 == p + ([addr] + s + [close]) + (y0 + hh) + [last]
    ensures until == |p| + |s| + 2 && |p| + 2 <= until < |t2|
  {
    Parts(t1, p, f, [close] + y0, last);
  }

  /** After the rotation the tape reads: the ADDR where the quote was, and
      the hoisted functions with the new FN last. */
  lemma QuoteHoisted(t: seq<Symbol>, i: nat, n: Node, addr: Symbol, name: string, body: Lowering, t': seq<Symbol>)
    requires i + |Flatten(n)| < |t|
    requires t' == (t[..i] + [addr]) + (t[i + |Flatten(n)|..|t| - 1] + FlattenAll(body.hoisted))
                 + ([Symbol(Fn, name)] + FlattenAll(body.sites) + [Symbol(End, name)]) + [t[|t| - 1]]
    ensures |Flatten(Leaf(addr))| == 1
    ensures t' == t[..i] + Flatten(Leaf(addr)) + t[i + |Flatten(n)|..|t| - 1]
                 + FlattenAll(body.hoisted + [Hoist(name, body.sites)]) + [t[|t| - 1]]
  {
    var h := Hoist(name, body.sites);
    FlattenAllSnoc(body.hoisted, h);
    assert Flatten(h) == [Symbol(Fn, name)] + FlattenAll(body.sites) + [Symbol(End, name)];
    assert Flatten(Leaf(addr)) == [addr];
    Moved(t[..i], addr, t[i + |Flatten(n)|..|t| - 1], FlattenAll(body.hoisted), Flatten(h), t[|t| - 1]);
  }

  lemma Moved<T>(p: seq<T>, a: T, y: seq<T>, hh: seq<T>, f: seq<T>, last: T)
    ensures (p + [a]) + (y + hh) + f + [last] == p + [a] + y + (hh + f) + [last]
  {
  }

  /** What LowerNode makes of a quote. */
  lemma QuoteLowered(n: Node, id: nat, addr: Symbol, name: string, kids2: seq<Node>, walked: Lowering, body: Lowering)
    requires n.Block? && n.open.kind == Quote && name == QuoteName(id) && addr == Symbol(Addr, name)
    requires WFAll(n.kids) && kids2 == [Leaf(addr)] + n.kids && walked == LowerNodes(kids2, id + 1)
    requires |walked.sites| > 0 && body == Lowering(walked.sites[1..], walked.hoisted, walked.next)
    ensures LowerNode(n, id) == Lowered(Leaf(addr), body.hoisted + [Hoist(name, body.sites)], body.next)
  {
    QuoteKids(addr, n.kids, id + 1);
    assert walked.sites[1..] == LowerNodes(n.kids, id + 1).sites;
  }

  /** The quote's name, then the names its body interned. */
  lemma InternQuote(intern0: seq<string>, intern1: seq<string>, intern2: seq<string>, id: nat, next: nat)
    requires id + 1 <= next && intern1 == intern0 + [QuoteName(id)] && intern2 == intern1 + Names(id + 1, next)
    ensures intern2 == intern0 + Names(id, next)
  {
    assert Names(id, next) == [QuoteName(id)] + Names(id + 1, next);
  }

  /** The quote's walk starts at its ADDR: an atom, then the quote's body. */
  lemma QuoteKids(addr: Symbol, kids: seq<Node>, id: nat)
    requires addr.kind == Addr && WFAll(kids)
    ensures var kids2 := [Leaf(addr)] + kids;
      var body := LowerNodes(kids, id);
      WFAll(kids2) && FlattenAll(kids2) == [addr] + FlattenAll(kids)
      && LowerNodes(kids2, id) == Lowering([Leaf(addr)] + body.sites, body.hoisted, body.next)
      && FlattenAll([Leaf(addr)] + body.sites) == [addr] + FlattenAll(body.sites)
  {
    var kids2 := [Leaf(addr)] + kids;
    assert kids2[0] == Leaf(addr) && kids2[1..] == kids;
    var body := LowerNodes(kids, id);
    var s2 := [Leaf(addr)] + body.sites;
    assert s2[0] == Leaf(addr) && s2[1..] == body.sites;
  }

  /** visit_block over the nodes `kids` from `j` up to the closing END,
      which is not the tape's last symbol. */
  method QuotesBlock(ctx: Context, t: seq<Symbol>, j: nat, ghost kids: seq<Node>)
    returns (t': seq<Symbol>, r: nat, ghost l: Lowering)
    requires WFAll(kids) && j + |FlattenAll(kids)| < |t| - 1
    requires t[j..j + |FlattenAll(kids)|] == FlattenAll(kids) && t[j + |FlattenAll(kids)|].kind == End
    modifies ctx`intern, ctx`internId
    ensures l == LowerNodes(kids, old(ctx.internId))
    ensures t' == t[..j] + FlattenAll(l.sites) + t[j + |FlattenAll(kids)|..|t| - 1] + FlattenAll(l.hoisted) + [t[|t| - 1]]
      && r == j + |FlattenAll(l.sites)| + 1
      && ctx.internId == l.next && ctx.intern == old(ctx.intern) + Names(old(ctx.internId), l.next)
    decreases |FlattenAll(kids)|, 3
  {
    ghost var id0 := ctx.internId;
    ghost var whole := LowerNodes(kids, id0);
    ghost var pre, mid, last := t[..j], t[j + |FlattenAll(kids)|..|t| - 1], t[|t| - 1];
    ghost var k := 0;
    ghost var done: seq<Node> := [];
    ghost var hacc: seq<Node> := [];
    ghost var tail := mid + FlattenAll(hacc) + [last];
    QWalkStart(t, j, kids, id0);
    assert Names(id0, id0) == [];
    t' := t;
    var it := j;
    while t'[it].kind != End
      invariant QWalk(t', kids, pre, mid, last, whole, done, hacc, tail, k, it, ctx.internId)
      invariant id0 <= ctx.internId && ctx.intern == old(ctx.intern) + Names(id0, ctx.internId)
      decreases |kids| - k
    {
      var t2: seq<Symbol>, x: nat;
      ghost var a: Lowered, tail2: seq<Symbol>;
      t2, x, a, tail2 := QuotesItem(ctx, t', kids, pre, mid, last, whole, done, hacc, tail, k, it, id0, old(ctx.intern));
      t', it := t2, x;
      done, hacc, k, tail := done + [a.site], hacc + a.hoisted, k + 1, tail2;
    }
    BlockEnd(t, t', j, kids, pre, mid, last, whole, done, hacc, tail, k, it, ctx.internId);
    return t', it + 1, whole;
  }

  /** The outcome of a walk, once some nodes are already lowered. */
  function Glue(done: seq<Node>, hacc: seq<Node>, rest: Lowering): Lowering
  {
    Lowering(done + rest.sites, hacc + rest.hoisted, rest.next)
  }

  lemma GlueStep(done: seq<Node>, hacc: seq<Node>, kids: seq<Node>, k: nat, id: nat)
    requires k < |kids|
    ensures var a := LowerNode(kids[k], id);
      Glue(done, hacc, LowerNodes(kids[k..], id))
      == Glue(done + [a.site], hacc + a.hoisted, LowerNodes(kids[k + 1..], a.next))
  {
    assert kids[k..][0] == kids[k] && kids[k..][1..] == kids[k + 1..];
    var a := LowerNode(kids[k], id);
    var b := LowerNodes(kids[k + 1..], a.next);
    assert done + ([a.site] + b.sites) == (done + [a.site]) + b.sites;
    assert hacc + (a.hoisted + b.hoisted) == (hacc + a.hoisted) + b.hoisted;
  }

  /** The invariant of the loop in QuotesBlock: the tape holds `pre`, the
      lowered sites `done`, the kids still to visit, the tape's symbols
      `mid` after the block, the functions `hacc` hoisted so far and the
      `last` symbol; the lowering of the whole run is the part done glued to
      the lowering of the rest. */
  ghost predicate QWalk(t: seq<Symbol>, kids: seq<Node>, pre: seq<Symbol>, mid: seq<Symbol>, last: Symbol,
                        whole: Lowering, done: seq<Node>, hacc: seq<Node>, tail: seq<Symbol>, k: nat, it: nat, id: nat)
  {
    k <= |kids| && WFAll(kids[k..])
    && t == pre + FlattenAll(done) + FlattenAll(kids[k..]) + tail
    && |tail| > 1 && tail[0].kind == End && tail == mid + FlattenAll(hacc) + [last]
    && it == |pre| + |FlattenAll(done)| && it < |t| && (t[it].kind == End <==> k == |kids|)
    && |FlattenAll(kids[k..])| <= |FlattenAll(kids)|
    && whole == Glue(done, hacc, LowerNodes(kids[k..], id))
  }

  /** One turn of the loop in QuotesBlock: quotes_visit on the next kid. */
  method QuotesItem(ctx: Context, t: seq<Symbol>, ghost kids: seq<Node>, ghost pre: seq<Symbol>,
                    ghost mid: seq<Symbol>, ghost last: Symbol, ghost whole: Lowering, ghost done: seq<Node>,
                    ghost hacc: seq<Node>, ghost tail: seq<Symbol>, ghost k: nat, it: nat,
                    ghost id0: nat, ghost intern0: seq<string>)
    returns (t2: seq<Symbol>, x: nat, ghost a: Lowered, ghost tail2: seq<Symbol>)
    requires QWalk(t, kids, pre, mid, last, whole, done, hacc, tail, k, it, ctx.internId) && t[it].kind != End
    requires id0 <= ctx.internId && ctx.intern == intern0 + Names(id0, ctx.internId)
    modifies ctx`intern, ctx`internId
    ensures QWalk(t2, kids, pre, mid, last, whole, done + [a.site], hacc + a.hoisted, tail2, k + 1, x, ctx.internId)
    ensures id0 <= ctx.internId && ctx.intern == intern0 + Names(id0, ctx.internId)
    decreases |FlattenAll(kids)|, 2
  {
    var node := kids[k];
    KidAt(t, pre, done, kids, k, tail, it, node);
    ghost var idk := ctx.internId;
    t2, x, a := QuotesVisit(ctx, t, it, node);
    InternStep(intern0, id0, idk, a.next);
    tail2 := KidStep(t, pre, done, kids, k, tail, it, node, a, t2, x);
    TailStep(mid, hacc, last, a.hoisted, tail);
    GlueStep(done, hacc, kids, k, idk);
  }

  /** The walk starts with nothing lowered and the whole block ahead. */
  lemma QWalkStart(t: seq<Symbol>, j: nat, kids: seq<Node>, id: nat)
    requires WFAll(kids) && j + |FlattenAll(kids)| < |t| - 1
    requires t[j..j + |FlattenAll(kids)|] == FlattenAll(kids) && t[j + |FlattenAll(kids)|].kind == End
    ensures QWalk(t, kids, t[..j], t[j + |FlattenAll(kids)|..|t| - 1], t[|t| - 1], LowerNodes(kids, id),
                  [], [], t[j + |FlattenAll(kids)|..|t| - 1] + FlattenAll([]) + [t[|t| - 1]], 0, j, id)
  {
    var p := j + |FlattenAll(kids)|;
    var tail := t[p..|t| - 1] + FlattenAll([]) + [t[|t| - 1]];
    assert FlattenAll([]) == [];
    Cut3(t, j, p, FlattenAll([]));
    assert kids[0..] == kids;
    LastKid(t, t[..j] + FlattenAll([]), kids, 0, tail);
    assert LowerNodes(kids, id) == Glue([], [], LowerNodes(kids[0..], id));
  }

  lemma Cut3<T>(t: seq<T>, j: nat, p: nat, e: seq<T>)
    requires j <= p < |t| && e == []
    ensures t == t[..j] + e + t[j..p] + (t[p..|t| - 1] + e + [t[|t| - 1]])
  {
    assert t == t[..j] + t[j..p] + (t[p..|t| - 1] + [t[|t| - 1]]);
  }

  /** The walk has reached the END: the whole block is lowered. */
  lemma BlockEnd(t: seq<Symbol>, t': seq<Symbol>, j: nat, kids: seq<Node>, pre: seq<Symbol>, mid: seq<Symbol>,
                 last: Symbol, l: Lowering, done: seq<Node>, hacc: seq<Node>, tail: seq<Symbol>, k: nat, it: nat, id: nat)
    requires j + |FlattenAll(kids)| < |t| && pre == t[..j]
    requires mid == t[j + |FlattenAll(kids)|..|t| - 1] && last == t[|t| - 1]
    requires QWalk(t', kids, pre, mid, last, l, done, hacc, tail, k, it, id) && t'[it].kind == End
    ensures t' == t[..j] + FlattenAll(l.sites) + t[j + |FlattenAll(kids)|..|t| - 1] + FlattenAll(l.hoisted) + [t[|t| - 1]]
    ensures it + 1 == j + |FlattenAll(l.sites)| + 1 && l.next == id
  {
    assert kids[k..] == [];
    assert done + [] == done && hacc + [] == hacc;
  }

  /** The next node of the walk is where QuotesVisit expects it. */
  lemma KidAt(t: seq<Symbol>, pre: seq<Symbol>, done: seq<Node>, kids: seq<Node>, k: nat,
              tail: seq<Symbol>, it: nat, node: Node)
    requires k < |kids| && WFAll(kids[k..]) && |tail| > 1
    requires t == pre + FlattenAll(done) + FlattenAll(kids[k..]) + tail
    requires it == |pre| + |FlattenAll(done)| && node == kids[k]
    ensures WF(node) && it + |Flatten(node)| < |t| && t[it..it + |Flatten(node)|] == Flatten(node)
    ensures |Flatten(node)| <= |FlattenAll(kids[k..])|
  {
    NextKid(t, pre + FlattenAll(done), kids, k, tail);
  }

  /** One step of the walk in QuotesBlock: the node at `it` was lowered;
      its hoisted functions went in front of the tape's last symbol. */
  lemma KidStep(t: seq<Symbol>, pre: seq<Symbol>, done: seq<Node>, kids: seq<Node>, k: nat,
                tail: seq<Symbol>, it: nat, node: Node, a: Lowered, t2: seq<Symbol>, x: nat)
    returns (tail2: seq<Symbol>)
    requires k < |kids| && WFAll(kids[k..]) && |tail| > 1 && tail[0].kind == End
    requires t == pre + FlattenAll(done) + FlattenAll(kids[k..]) + tail
    requires it == |pre| + |FlattenAll(done)| && node == kids[k] && it + |Flatten(node)| < |t|
    requires t2 == t[..it] + Flatten(a.site) + t[it + |Flatten(node)|..|t| - 1] + FlattenAll(a.hoisted) + [t[|t| - 1]]
    requires x == it + |Flatten(a.site)|
    ensures tail2 == tail[..|tail| - 1] + FlattenAll(a.hoisted) + [tail[|tail| - 1]]
    ensures |tail2| > 1 && tail2[0].kind == End
    ensures WFAll(kids[k + 1..])
    ensures t2 == pre + FlattenAll(done + [a.site]) + FlattenAll(kids[k + 1..]) + tail2
    ensures x == |pre| + |FlattenAll(done + [a.site])| && x < |t2|
    ensures |FlattenAll(kids[k + 1..])| <= |FlattenAll(kids[k..])|
    ensures t2[x].kind == End <==> k + 1 == |kids|
  {
    KidsTail(kids, k);
    FlattenAllSnoc(done, a.site);
    tail2 := tail[..|tail| - 1] + FlattenAll(a.hoisted) + [tail[|tail| - 1]];
    Spliced(t, pre, FlattenAll(done), Flatten(node), FlattenAll(kids[k + 1..]), tail, it,
            Flatten(a.site), FlattenAll(a.hoisted), t2);
    LastKid(t2, pre + FlattenAll(done + [a.site]), kids, k + 1, tail2);
  }

  /** The item `x` at `it`, between what was walked and the rest `rr`, is
      replaced by `s`, and `h` is put in front of the last symbol. */
  lemma Spliced<T>(t: seq<T>, pre: seq<T>, d: seq<T>, x: seq<T>, rr: seq<T>, tail: seq<T>, it: nat,
                   s: seq<T>, h: seq<T>, t2: seq<T>)
    requires t == pre + d + (x + rr) + tail && |tail| > 1 && it == |pre| + |d|
    requires t2 == t[..it] + s + t[it + |x|..|t| - 1] + h + [t[|t| - 1]]
    ensures t2 == pre + (d + s) + rr + (tail[..|tail| - 1] + h + [tail[|tail| - 1]])
    ensures tail[0] == (tail[..|tail| - 1] + h + [tail[|tail| - 1]])[0]
  {
    var m := tail[..|tail| - 1];
    assert tail == m + [tail[|tail| - 1]];
    assert t == (pre + d) + x + (rr + m) + [tail[|tail| - 1]];
  }

  /** The functions hoisted so far, in front of the tape's last symbol. */
  lemma TailStep(mid: seq<Symbol>, hacc: seq<Node>, last: Symbol, h: seq<Node>, tail: seq<Symbol>)
    requires tail == mid + FlattenAll(hacc) + [last]
    ensures tail[..|tail| - 1] + FlattenAll(h) + [tail[|tail| - 1]] == mid + FlattenAll(hacc + h) + [last]
  {
    DropLast(tail, mid + FlattenAll(hacc), last);
    FlattenAllAppend(hacc, h);
    Assoc(mid, FlattenAll(hacc), FlattenAll(h));
  }

  lemma DropLast<T>(s: seq<T>, a: seq<T>, last: T)
    requires s == a + [last]
    ensures s[..|s| - 1] == a && s[|s| - 1] == last
  {
  }

  lemma Assoc<T>(a: seq<T>, b: seq<T>, c: seq<T>)
    ensures a + b + c == a + (b + c)
  {
  }

  /** Four consecutive parts of a tape, read back by slicing. */
  lemma Parts(t: seq<Symbol>, p: seq<Symbol>, x: seq<Symbol>, y: seq<Symbol>, last: Symbol)
    requires t == p + x + y + [last]
    ensures t[..|p|] == p && t[|p|..|p| + |x|] == x && t[|p| + |x|..|t| - 1] == y && t[|t| - 1] == last
  {
  }

  /** The block `[o] + f + [c]` at `i`, seen as the parts around its body. */
  lemma Around(t: seq<Symbol>, i: nat, o: Symbol, f: seq<Symbol>, c: Symbol)
    requires i + |f| + 2 < |t| && t[i..i + |f| + 2] == [o] + f + [c]
    ensures t == t[..i] + [o] + f + ([c] + t[i + |f| + 2..|t| - 1]) + [t[|t| - 1]]
  {
    var e := i + |f| + 2;
    assert t == t[..i] + t[i..e] + t[e..|t| - 1] + [t[|t| - 1]];
  }

  /** After the QUOTE at `i` is retagged to `addr` and a copy is inserted. */
  lemma Inserted(t: seq<Symbol>, i: nat, o: Symbol, f: seq<Symbol>, c: Symbol, addr: Symbol, t1: seq<Symbol>)
    requires i + |f| + 2 < |t| && t[i..i + |f| + 2] == [o] + f + [c]
    requires t1 == t[..i] + [addr, addr] + t[i + 1..]
    ensures t1 == (t[..i] + [addr]) + ([addr] + f) + ([c] + t[i + |f| + 2..|t| - 1]) + [t[|t| - 1]]
  {
    Around(t, i, o, f, c);
    assert t[i + 1..] == f + ([c] + t[i + |f| + 2..|t| - 1]) + [t[|t| - 1]];
  }

  /** After MoveToEnd: the lowered quote body is an FN block in front of the
      last symbol. */
  lemma Rotated(p: seq<Symbol>, addr: Symbol, s: seq<Symbol>, close: Symbol, y: seq<Symbol>, last: Symbol,
                name: string, t2: seq<Symbol>, from: nat, until: nat, t': seq<Symbol>)
    requires close.kind == End
    requires t2 == p + ([addr] + s + [close]) + y + [last]
    requires from == |p| && until == |p| + |s| + 2
    requires t' == t2[..from] + t2[until..|t2| - 1] + ([Symbol(Fn, name)] + t2[from + 1..until - 1]
                   + [Symbol(t2[until - 1].kind, name)]) + [t2[|t2| - 1]]
    ensures t' == p + y + ([Symbol(Fn, name)] + s + [Symbol(End, name)]) + [last]
  {
    var x := [addr] + s + [close];
    Parts(t2, p, x, y, last);
    assert t2[from + 1..until - 1] == s && t2[until - 1] == close by {
      assert t2[from..until] == x;
    }
  }

  /** A block keeps its opener and END around the body put in between. */
  lemma Rewrapped(t: seq<Symbol>, i: nat, o: Symbol, f: seq<Symbol>, c: Symbol, s: seq<Symbol>,
                  h: seq<Symbol>, t': seq<Symbol>)
    requires i + |f| + 2 < |t| && t[i..i + |f| + 2] == [o] + f + [c]
    requires t' == t[..i + 1] + s + t[i + 1 + |f|..|t| - 1] + h + [t[|t| - 1]]
    ensures t' == t[..i] + ([o] + s + [c]) + t[i + |f| + 2..|t| - 1] + h + [t[|t| - 1]]
  {
    Around(t, i, o, f, c);
    Parts(t, t[..i] + [o], f, [c] + t[i + |f| + 2..|t| - 1], t[|t| - 1]);
  }

  /** Interning the names of two consecutive id ranges. */
  lemma InternStep(intern: seq<string>, a: nat, b: nat, c: nat)
    requires a <= b <= c
    ensures intern + Names(a, b) + Names(b, c) == intern + Names(a, c)
  {
    NamesAppend(a, b, c);
  }

  // ---------------------------------------------------------------------
  // The entry point.

  /** quotes: quotes_visit on the tape's first item. An atom is left alone;
      a block is walked by RootWalk. Afterwards the tape spells out the
      lowered program: see LowerProgramProps for what that guarantees. */
  method Run(ctx: Context, t: seq<Symbol>) returns (t': seq<Symbol>, ghost n: Node)
    requires t == [] || (Balanced(t) && t[0].kind != Quote)
    modifies ctx`intern, ctx`internId
    ensures t == [] ==> t' == [] && ctx.internId == old(ctx.internId) && ctx.intern == old(ctx.intern)
    ensures t != [] ==>
              n == TreeAt(t, 0) && Flatten(n) == t
              && t' == Flatten(LowerProgram(n, old(ctx.internId)).site)
              && ctx.internId == LowerProgram(n, old(ctx.internId)).next
              && ctx.intern == old(ctx.intern) + Names(old(ctx.internId), ctx.internId)
  {
    if t == [] {
      return t, Leaf(Symbol(Blank, ""));
    }
    ghost var id0 := ctx.internId;
    BalancedTree(t);
    n := TreeAt(t, 0);
    NodeHead(n);
    if !IsOpener(t[0].kind) {
      assert Names(id0, id0) == [];
      assert ctx.intern + [] == ctx.intern;
      return t, n;
    }
    ghost var walked: Lowering;
    t', walked := RootWalk(ctx, t, n.open, n.kids, n.close);
    RootLowered(n, id0, walked);
  }

  /** visit_block on the root's body. What the walk hoists goes in front of
      the root's END, so the walk visits it in turn: LowerRun. */
  method RootWalk(ctx: Context, t: seq<Symbol>, ghost o: Symbol, ghost kids: seq<Node>, ghost c: Symbol)
    returns (t': seq<Symbol>, ghost l: Lowering)
    requires WFAll(kids) && c.kind == End && t == [o] + FlattenAll(kids) + [c]
    modifies ctx`intern, ctx`internId
    ensures l == LowerRun(kids, old(ctx.internId))
    ensures t' == [o] + FlattenAll(l.sites) + [c]
      && ctx.internId == l.next && ctx.intern == old(ctx.intern) + Names(old(ctx.internId), l.next)
  {
    ghost var id0 := ctx.internId;
    ghost var todo := kids;
    ghost var done: seq<Node> := [];
    l := LowerRun(kids, id0);
    RootStart(t, o, kids, c);
    assert Names(id0, id0) == [];
    t' := t;
    var it := 1;
    while t'[it].kind != End
      invariant WFAll(todo) && t' == [o] + FlattenAll(done) + FlattenAll(todo) + [c]
      invariant it == 1 + |FlattenAll(done)| && it < |t'|
      invariant t'[it].kind == End <==> todo == []
      invariant l == Lowering(done + LowerRun(todo, ctx.internId).sites, [], LowerRun(todo, ctx.internId).next)
      invariant id0 <= ctx.internId && ctx.intern == old(ctx.intern) + Names(id0, ctx.internId)
      decreases QuotesAll(todo), |todo|
    {
      ghost var node := todo[0];
      RootKid(t', o, done, todo, c, it, node);
      ghost var idk := ctx.internId;
      var t2: seq<Symbol>, x: nat;
      ghost var a: Lowered;
      t2, x, a := QuotesVisit(ctx, t', it, node);
      InternStep(old(ctx.intern), id0, idk, a.next);
      RootStep(t', o, done, todo, c, it, node, idk, a, t2, x);
      RunShrinks(todo, idk);
      RunGlue(l, done, todo, idk, a);
      t', it := t2, x;
      done, todo := done + [a.site], todo[1..] + a.hoisted;
    }
    assert done + [] == done;
  }

  lemma RootStart(t: seq<Symbol>, o: Symbol, kids: seq<Node>, c: Symbol)
    requires WFAll(kids) && c.kind == End && t == [o] + FlattenAll(kids) + [c]
    ensures t == [o] + FlattenAll([]) + FlattenAll(kids) + [c] && 1 < |t|
    ensures t[1].kind == End <==> kids == []
  {
    assert FlattenAll([]) == [];
    LastKid(t, [o], kids, 0, [c]);
    assert kids[0..] == kids;
  }

  /** The next node of the root's walk is where QuotesVisit expects it. */
  lemma RootKid(t: seq<Symbol>, o: Symbol, done: seq<Node>, todo: seq<Node>, c: Symbol, it: nat, node: Node)
    requires todo != [] && WFAll(todo) && t == [o] + FlattenAll(done) + FlattenAll(todo) + [c]
    requires it == 1 + |FlattenAll(done)| && node == todo[0]
    ensures WF(node) && it + |Flatten(node)| < |t| && t[it..it + |Flatten(node)|] == Flatten(node)
  {
    assert FlattenAll(todo) == Flatten(node) + FlattenAll(todo[1..]);
    Middle(t, [o] + FlattenAll(done), FlattenAll(todo), c, Flatten(node), FlattenAll(todo[1..]) + [c]);
  }

  /** The part `x` of a tape, read back by slicing. */
  lemma Middle<T>(t: seq<T>, p: seq<T>, f: seq<T>, c: T, x: seq<T>, y: seq<T>)
    requires t == p + f + [c] && f + [c] == x + y && |y| > 0
    ensures |p| + |x| < |t| && t[|p|..|p| + |x|] == x
  {
    assert t == p + (f + [c]) == p + x + y;
  }

  /** One step of the root's walk: the node at `it` was lowered and what
      it hoisted joined the nodes still to walk. */
  lemma RootStep(t: seq<Symbol>, o: Symbol, done: seq<Node>, todo: seq<Node>, c: Symbol, it: nat,
                 node: Node, id: nat, a: Lowered, t2: seq<Symbol>, x: nat)
    requires todo != [] && WFAll(todo) && c.kind == End && t == [o] + FlattenAll(done) + FlattenAll(todo) + [c]
    requires it == 1 + |FlattenAll(done)| && node == todo[0] && it + |Flatten(node)| < |t|
    requires a == LowerNode(node, id)
    requires t2 == t[..it] + Flatten(a.site) + t[it + |Flatten(node)|..|t| - 1] + FlattenAll(a.hoisted) + [t[|t| - 1]]
    requires x == it + |Flatten(a.site)|
    ensures WFAll(todo[1..] + a.hoisted)
    ensures t2 == [o] + FlattenAll(done + [a.site]) + FlattenAll(todo[1..] + a.hoisted) + [c]
    ensures x == 1 + |FlattenAll(done + [a.site])| && x < |t2|
    ensures t2[x].kind == End <==> todo[1..] + a.hoisted == []
  {
    LowerWF(node, id);
    FlattenAllAppend(todo[1..], a.hoisted);
    RootTape(t, o, done, todo, c, it, node, a.site, a.hoisted, t2);
    FlattenAllSnoc(done, a.site);
    RootNext(t2, o, done + [a.site], todo[1..] + a.hoisted, c, x);
  }

  /** The tape after one step of the root's walk. */
  lemma RootTape(t: seq<Symbol>, o: Symbol, done: seq<Node>, todo: seq<Node>, c: Symbol, it: nat,
                 node: Node, site: Node, hoisted: seq<Node>, t2: seq<Symbol>)
    requires todo != [] && t == [o] + FlattenAll(done) + FlattenAll(todo) + [c]
    requires it == 1 + |FlattenAll(done)| && node == todo[0] && it + |Flatten(node)| < |t|
    requires t2 == t[..it] + Flatten(site) + t[it + |Flatten(node)|..|t| - 1] + FlattenAll(hoisted) + [t[|t| - 1]]
    ensures t2 == [o] + FlattenAll(done + [site]) + FlattenAll(todo[1..] + hoisted) + [c]
  {
    assert FlattenAll(todo) == Flatten(node) + FlattenAll(todo[1..]);
    RootSpliced(t, o, FlattenAll(done), FlattenAll(todo), Flatten(node), FlattenAll(todo[1..]), c, it,
                Flatten(site), FlattenAll(hoisted), t2);
    FlattenAllSnoc(done, site);
    FlattenAllAppend(todo[1..], hoisted);
  }

  /** The walk of the root's body is at its END exactly when no node is
      left to walk. */
  lemma RootNext(t: seq<Symbol>, o: Symbol, done: seq<Node>, todo: seq<Node>, c: Symbol, it: nat)
    requires WFAll(todo) && c.kind == End && t == [o] + FlattenAll(done) + FlattenAll(todo) + [c]
    requires it == 1 + |FlattenAll(done)|
    ensures it < |t| && (t[it].kind == End <==> todo == [])
  {
    assert todo[0..] == todo;
    LastKid(t, [o] + FlattenAll(done), todo, 0, [c]);
  }

  /** The item `x` at `it` of a block is replaced by `s`, and `h` is put
      in front of the block's END. */
  lemma RootSpliced(t: seq<Symbol>, o: Symbol, d: seq<Symbol>, f: seq<Symbol>, x: seq<Symbol>, rr: seq<Symbol>,
                     c: Symbol, it: nat, s: seq<Symbol>, h: seq<Symbol>, t2: seq<Symbol>)
    requires t == [o] + d + f + [c] && f == x + rr && it == 1 + |d|
    requires t2 == t[..it] + s + t[it + |x|..|t| - 1] + h + [t[|t| - 1]]
    ensures t2 == [o] + (d + s) + (rr + h) + [c]
  {
    assert t == ([o] + d) + x + rr + [c];
    assert t[..it] == [o] + d;
    assert t[it + |x|..|t| - 1] == rr;
  }

  /** The root's walk after one more node. */
  lemma RunGlue(l: Lowering, done: seq<Node>, todo: seq<Node>, id: nat, a: Lowered)
    requires WFAll(todo) && todo != [] && a == LowerNode(todo[0], id)
    requires l == Lowering(done + LowerRun(todo, id).sites, [], LowerRun(todo, id).next)
    ensures WFAll(todo[1..] + a.hoisted)
    ensures l == Lowering((done + [a.site]) + LowerRun(todo[1..] + a.hoisted, a.next).sites, [],
                          LowerRun(todo[1..] + a.hoisted, a.next).next)
  {
    RunCons(todo, id);
    var b := LowerRun(todo[1..] + a.hoisted, a.next);
    assert done + ([a.site] + b.sites) == (done + [a.site]) + b.sites;
  }

  /** The walk of the root's body is the lowering of the program. */
  lemma RootLowered(n: Node, id: nat, walked: Lowering)
    requires WF(n) && n.Block? && walked == LowerRun(n.kids, id)
    ensures Block(n.open, walked.sites, n.close) == LowerProgram(n, id).site
    ensures walked.next == LowerProgram(n, id).next
  {
    RunIsLower(n.kids, [], id);
    assert n.kids + [] == n.kids;
    var b := LowerNodes(n.kids, id);
    assert b.sites + [] + b.hoisted == b.sites + b.hoisted;
  }
}
