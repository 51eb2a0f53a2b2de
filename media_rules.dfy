/** `Eink.#processEinkMediaQueries` (Eink.js:642-691): the pass over every style
    sheet that collects the rules of `@media eink` and sorts their selectors by the
    role their `--display` custom property gives them. */
module MediaRules {
  import opened Wrappers

  /** A rule inside `@media eink`; `display` is its `--display` value ("" when it has
      none or no `style`). */
  datatype InnerRule = InnerRule(selectorText: string, cssText: string, display: string)

  /** A top-level rule: a media rule with its `mediaText`, or any other rule. */
  datatype Rule = MediaRule(mediaText: string, rules: seq<InnerRule>) | OtherRule

  /** A sheet whose rules can be read, or one that throws on access (cross-origin)
      and is skipped by the `catch`. */
  datatype StyleSheet = Readable(cssRules: seq<Rule>) | CrossOrigin

  /** The fields of `Eink` the pass fills. `bookSelectors` and `mainBookSelector`
      keep the whole rule, as the `[selectorText, einkRule]` pairs do. */
  datatype Collected = Collected(
    einkRules: seq<Rule>,
    einkStyle: string,
    bookSelectors: seq<InnerRule>,
    mainBookSelector: Option<InnerRule>,
    contentSelectors: seq<string>,
    itemSelectors: seq<string>,
    uiSelectors: seq<string>)

  predicate IsEinkMedia(r: Rule) {
    r.MediaRule? && r.mediaText == "eink"
  }

  /** The cases of the `switch (displayValue)`. */
  datatype Role = BookRole | MainBookRole | ContentRole | ItemRole | UIRole | NoRole

  function RoleOf(display: string): Role {
    if display == "book" then BookRole
    else if display == "mainBook" then MainBookRole
    else if display == "book-content" then ContentRole
    else if display == "book-item" then ItemRole
    else if display == "book-UI" then UIRole
    else NoRole
  }

  /** The body of the innermost loop for one rule. */
  function AddInner(c: Collected, r: InnerRule): Collected {
    var c' := c.(einkStyle := c.einkStyle + r.cssText + "\n");
    match RoleOf(r.display)
    case BookRole => c'.(bookSelectors := c'.bookSelectors + [r])
    case MainBookRole => c'.(mainBookSelector := Some(r))
    case ContentRole => c'.(contentSelectors := c'.contentSelectors + [r.selectorText])
    case ItemRole => c'.(itemSelectors := c'.itemSelectors + [r.selectorText])
    case UIRole => c'.(uiSelectors := c'.uiSelectors + [r.selectorText])
    case NoRole => c'
  }

  function AddInners(c: Collected, rs: seq<InnerRule>): Collected {
    if rs == [] then c else AddInner(AddInners(c, rs[..|rs| - 1]), rs[|rs| - 1])
  }

  function AddRule(c: Collected, r: Rule): Collected {
    if IsEinkMedia(r) then AddInners(c.(einkRules := c.einkRules + [r]), r.rules) else c
  }

  function AddRules(c: Collected, rs: seq<Rule>): Collected {
    if rs == [] then c else AddRule(AddRules(c, rs[..|rs| - 1]), rs[|rs| - 1])
  }

  function AddSheets(c: Collected, sheets: seq<StyleSheet>): Collected {
    if sheets == [] then c
    else
      var last := sheets[|sheets| - 1];
      var c' := AddSheets(c, sheets[..|sheets| - 1]);
      if last.Readable? then AddRules(c', last.cssRules) else c'
  }

  // ---------------------------------------------------------------------------
  // the reference: filters over all rules inside `@media eink`, in document order

  function EinkMediaOfRules(rs: seq<Rule>): seq<Rule> {
    if rs == [] then [] else EinkMediaOfRules(rs[..|rs| - 1]) + if IsEinkMedia(rs[|rs| - 1]) then [rs[|rs| - 1]] else []
  }

  function EinkMedia(sheets: seq<StyleSheet>): seq<Rule> {
    if sheets == [] then []
    else
      var last := sheets[|sheets| - 1];
      EinkMedia(sheets[..|sheets| - 1]) + if last.Readable? then EinkMediaOfRules(last.cssRules) else []
  }

  function InnerOf(rs: seq<Rule>): seq<InnerRule> {
    if rs == [] then [] else InnerOf(rs[..|rs| - 1]) + if rs[|rs| - 1].MediaRule? then rs[|rs| - 1].rules else []
  }

  /** Every rule inside `@media eink` of every readable sheet. */
  function EinkInner(sheets: seq<StyleSheet>): seq<InnerRule> {
    InnerOf(EinkMedia(sheets))
  }

  /** The rules of `rs` whose `--display` gives them role `d`, in order. */
  function WithRole(rs: seq<InnerRule>, d: Role): (r: seq<InnerRule>)
    ensures forall i :: 0 <= i < |r| ==> r[i] in rs && RoleOf(r[i].display) == d
  {
    if rs == [] then []
    else WithRole(rs[..|rs| - 1], d) + if RoleOf(rs[|rs| - 1].display) == d then [rs[|rs| - 1]] else []
  }

  function Selectors(rs: seq<InnerRule>): (r: seq<string>)
    ensures |r| == |rs| && forall i :: 0 <= i < |rs| ==> r[i] == rs[i].selectorText
  {
    if rs == [] then [] else Selectors(rs[..|rs| - 1]) + [rs[|rs| - 1].selectorText]
  }

  function Styles(rs: seq<InnerRule>): string {
    if rs == [] then "" else Styles(rs[..|rs| - 1]) + rs[|rs| - 1].cssText + "\n"
  }

  /** The last rule with `--display: mainBook`, if any; otherwise `prior`. */
  function LastMain(rs: seq<InnerRule>, prior: Option<InnerRule>): (r: Option<InnerRule>)
    ensures r.Some? && r != prior ==> r.value in rs && r.value.display == "mainBook"
  {
    if rs == [] then prior
    else if RoleOf(rs[|rs| - 1].display) == MainBookRole then Some(rs[|rs| - 1])
    else LastMain(rs[..|rs| - 1], prior)
  }

  /** What the pass over `rs` means, field by field: book rules, content, item and
      UI selectors appended in order, the last `mainBook` rule wins, every rule's
      text appended to `einkStyle`, and any other `--display` value ignored. */
  predicate Means(c: Collected, rs: seq<InnerRule>, r: Collected) {
    r.einkRules == c.einkRules &&
    r.einkStyle == c.einkStyle + Styles(rs) &&
    r.bookSelectors == c.bookSelectors + WithRole(rs, BookRole) &&
    r.mainBookSelector == LastMain(rs, c.mainBookSelector) &&
    r.contentSelectors == c.contentSelectors + Selectors(WithRole(rs, ContentRole)) &&
    r.itemSelectors == c.itemSelectors + Selectors(WithRole(rs, ItemRole)) &&
    r.uiSelectors == c.uiSelectors + Selectors(WithRole(rs, UIRole))
  }

  lemma SelectorsSnoc(a: seq<InnerRule>, r: InnerRule)
    ensures Selectors(a + [r]) == Selectors(a) + [r.selectorText]
  {
    assert (a + [r])[..|a|] == a;
  }

  /** One rule more: the filter for its own `--display` grows by it, the others
      stay. */
  lemma WithRoleSnoc(rs: seq<InnerRule>, d: Role)
    requires rs != []
    ensures var r := rs[|rs| - 1];
      WithRole(rs, d) == WithRole(rs[..|rs| - 1], d) + if RoleOf(r.display) == d then [r] else []
  {
  }

  /** The selector list a `--display` role fills. */
  function RoleList(c: Collected, d: Role): seq<string> {
    if d == ContentRole then c.contentSelectors
    else if d == ItemRole then c.itemSelectors
    else c.uiSelectors
  }

  lemma {:induction false} RoleListMeaning(c: Collected, rs: seq<InnerRule>, d: Role)
    requires d == ContentRole || d == ItemRole || d == UIRole
    ensures RoleList(AddInners(c, rs), d) == RoleList(c, d) + Selectors(WithRole(rs, d))
  {
    if rs != [] {
      var init := rs[..|rs| - 1];
      var r := rs[|rs| - 1];
      var before := AddInners(c, init);
      assert AddInners(c, rs) == AddInner(before, r);
      RoleListMeaning(c, init, d);
      AddInnerRoleList(before, r, d);
      WithRoleSnoc(rs, d);
      if RoleOf(r.display) == d {
        SelectorsSnoc(WithRole(init, d), r);
        assert RoleList(c, d) + Selectors(WithRole(init, d)) + [r.selectorText] ==
          RoleList(c, d) + (Selectors(WithRole(init, d)) + [r.selectorText]);
      } else {
        assert WithRole(rs, d) == WithRole(init, d);
      }
    }
  }

  /** One rule feeds the selector list of its own role and no other. */
  lemma AddInnerRoleList(c: Collected, r: InnerRule, d: Role)
    requires d == ContentRole || d == ItemRole || d == UIRole
    ensures RoleList(AddInner(c, r), d) == RoleList(c, d) + if RoleOf(r.display) == d then [r.selectorText] else []
  {
  }

  /** One rule appends its text to `einkStyle` and leaves `einkRules` alone. */
  lemma AddInnerStyle(c: Collected, r: InnerRule)
    ensures AddInner(c, r).einkStyle == c.einkStyle + r.cssText + "\n"
    ensures AddInner(c, r).einkRules == c.einkRules
  {
  }

  lemma {:induction false} BookListMeaning(c: Collected, rs: seq<InnerRule>)
    ensures AddInners(c, rs).bookSelectors == c.bookSelectors + WithRole(rs, BookRole)
  {
    if rs != [] {
      BookListMeaning(c, rs[..|rs| - 1]);
      WithRoleSnoc(rs, BookRole);
    }
  }

  lemma {:induction false} MainMeaning(c: Collected, rs: seq<InnerRule>)
    ensures AddInners(c, rs).mainBookSelector == LastMain(rs, c.mainBookSelector)
  {
    if rs != [] {
      MainMeaning(c, rs[..|rs| - 1]);
    }
  }

  lemma {:induction false} StyleMeaning(c: Collected, rs: seq<InnerRule>)
    ensures AddInners(c, rs).einkStyle == c.einkStyle + Styles(rs)
    ensures AddInners(c, rs).einkRules == c.einkRules
  {
    if rs != [] {
      StyleMeaning(c, rs[..|rs| - 1]);
      AddInnerStyle(AddInners(c, rs[..|rs| - 1]), rs[|rs| - 1]);
    }
  }

  lemma AddInnersMeaning(c: Collected, rs: seq<InnerRule>)
    ensures Means(c, rs, AddInners(c, rs))
  {
    StyleMeaning(c, rs);
    BookListMeaning(c, rs);
    MainMeaning(c, rs);
    RoleListMeaning(c, rs, ContentRole);
    RoleListMeaning(c, rs, ItemRole);
    RoleListMeaning(c, rs, UIRole);
  }

  /** Other rules of a readable sheet and unreadable sheets contribute nothing. */
  lemma IgnoredRules(c: Collected)
    ensures AddRule(c, OtherRule) == c && AddSheets(c, [CrossOrigin]) == c
  {
    assert [CrossOrigin][..0] == [];
  }

  lemma {:induction false} AddInnersAppend(c: Collected, a: seq<InnerRule>, b: seq<InnerRule>)
    ensures AddInners(c, a + b) == AddInners(AddInners(c, a), b)
    decreases |b|
  {
    if b == [] {
      assert a + b == a;
    } else {
      AddInnersAppend(c, a, b[..|b| - 1]);
      assert (a + b)[..|a + b| - 1] == a + b[..|b| - 1];
    }
  }

  lemma {:induction false} AddInnersKeepsRules(c: Collected, rs: seq<InnerRule>, e: seq<Rule>)
    ensures AddInners(c.(einkRules := e), rs) == AddInners(c, rs).(einkRules := e)
  {
    if rs != [] {
      AddInnersKeepsRules(c, rs[..|rs| - 1], e);
    }
  }

  /** The rules of one sheet, in document order, are the rules inside its
      `@media eink` rules; those media rules are appended to `einkRules`. */
  lemma {:induction false} AddRulesIsAddInners(c: Collected, rs: seq<Rule>)
    ensures AddRules(c, rs) ==
      AddInners(c, InnerOf(EinkMediaOfRules(rs))).(einkRules := c.einkRules + EinkMediaOfRules(rs))
  {
    if rs == [] {
      assert c.(einkRules := c.einkRules + []) == c;
    } else {
      var init := rs[..|rs| - 1];
      var r := rs[|rs| - 1];
      AddRulesIsAddInners(c, init);
      var before := AddRules(c, init);
      var m := EinkMediaOfRules(init);
      if IsEinkMedia(r) {
        assert EinkMediaOfRules(rs) == m + [r];
        assert InnerOf(m + [r]) == InnerOf(m) + r.rules by {
          assert (m + [r])[..|m + [r]| - 1] == m;
        }
        AddInnersAppend(c, InnerOf(m), r.rules);
        AddInnersKeepsRules(AddInners(c, InnerOf(m)), r.rules, c.einkRules + m + [r]);
        assert c.einkRules + (m + [r]) == c.einkRules + m + [r];
      } else {
        assert EinkMediaOfRules(rs) == m;
      }
    }
  }

  lemma {:induction false} InnerOfAppend(a: seq<Rule>, b: seq<Rule>)
    ensures InnerOf(a + b) == InnerOf(a) + InnerOf(b)
    decreases |b|
  {
    if b == [] {
      assert a + b == a;
    } else {
      var b0, r := b[..|b| - 1], b[|b| - 1];
      var tail := if r.MediaRule? then r.rules else [];
      assert (a + b)[..|a + b| - 1] == a + b0 && (a + b)[|a + b| - 1] == r;
      assert InnerOf(a + b) == InnerOf(a + b0) + tail;
      assert InnerOf(b) == InnerOf(b0) + tail;
      InnerOfAppend(a, b0);
      assert (InnerOf(a) + InnerOf(b0)) + tail == InnerOf(a) + (InnerOf(b0) + tail);
    }
  }

  /** One readable sheet more. */
  lemma SheetStep(c: Collected, m: seq<Rule>, rules: seq<Rule>)
    ensures AddRules(AddInners(c, InnerOf(m)).(einkRules := c.einkRules + m), rules) ==
      AddInners(c, InnerOf(m + EinkMediaOfRules(rules))).(einkRules := c.einkRules + (m + EinkMediaOfRules(rules)))
  {
    var n := EinkMediaOfRules(rules);
    var base := AddInners(c, InnerOf(m));
    var mid := base.(einkRules := c.einkRules + m);
    var inner := AddInners(base, InnerOf(n));
    calc {
      AddRules(mid, rules);
      == { AddRulesIsAddInners(mid, rules); }
      AddInners(mid, InnerOf(n)).(einkRules := mid.einkRules + n);
      == { AddInnersKeepsRules(base, InnerOf(n), c.einkRules + m); }
      inner.(einkRules := c.einkRules + m).(einkRules := mid.einkRules + n);
      == { assert c.einkRules + m + n == c.einkRules + (m + n); }
      inner.(einkRules := c.einkRules + (m + n));
      == { AddInnersAppend(c, InnerOf(m), InnerOf(n)); InnerOfAppend(m, n); }
      AddInners(c, InnerOf(m + n)).(einkRules := c.einkRules + (m + n));
    }
  }

  /** The whole pass is the pass over every rule inside `@media eink`, in document
      order, with those media rules appended to `einkRules`. */
  lemma {:induction false} AddSheetsIsAddInners(c: Collected, sheets: seq<StyleSheet>)
    ensures AddSheets(c, sheets) == AddInners(c, EinkInner(sheets)).(einkRules := c.einkRules + EinkMedia(sheets))
  {
    if sheets == [] {
      assert c.(einkRules := c.einkRules + []) == c;
    } else {
      var init := sheets[..|sheets| - 1];
      var last := sheets[|sheets| - 1];
      AddSheetsIsAddInners(c, init);
      if last.Readable? {
        SheetStep(c, EinkMedia(init), last.cssRules);
        assert EinkMedia(sheets) == EinkMedia(init) + EinkMediaOfRules(last.cssRules);
      } else {
        assert EinkMedia(sheets) == EinkMedia(init);
      }
    }
  }

  /** What `#processEinkMediaQueries` does, in terms of the rules inside
      `@media eink`. */
  lemma ProcessMeaning(c: Collected, sheets: seq<StyleSheet>)
    ensures var r := AddSheets(c, sheets);
      Means(c.(einkRules := c.einkRules + EinkMedia(sheets)), EinkInner(sheets), r)
  {
    AddSheetsIsAddInners(c, sheets);
    AddInnersMeaning(c, EinkInner(sheets));
    AddInnersKeepsRules(c, EinkInner(sheets), c.einkRules + EinkMedia(sheets));
    AddInnersMeaning(c.(einkRules := c.einkRules + EinkMedia(sheets)), EinkInner(sheets));
  }

  /** The `Eink` fields the pass fills. */
  class EinkRules {
    var einkRules: seq<Rule>
    var einkStyle: string
    var bookSelectors: seq<InnerRule>
    var mainBookSelector: Option<InnerRule>
    var contentSelectors: seq<string>
    var itemSelectors: seq<string>
    var uiSelectors: seq<string>

    function State(): Collected
      reads this
    {
      Collected(einkRules, einkStyle, bookSelectors, mainBookSelector, contentSelectors, itemSelectors, uiSelectors)
    }

    constructor()
      ensures State() == Collected([], "", [], None, [], [], [])
    {
      einkRules, einkStyle, bookSelectors, mainBookSelector := [], "", [], None;
      contentSelectors, itemSelectors, uiSelectors := [], [], [];
    }

    /** The `switch (displayValue)` and the style text for one rule. */
    method VisitInner(r: InnerRule)
      modifies this
      ensures State() == AddInner(old(State()), r)
    {
      einkStyle := einkStyle + r.cssText + "\n";
      if r.display != "" {
        if r.display == "book" {
          bookSelectors := bookSelectors + [r];
        } else if r.display == "mainBook" {
          mainBookSelector := Some(r);
        } else if r.display == "book-content" {
          contentSelectors := contentSelectors + [r.selectorText];
        } else if r.display == "book-item" {
          itemSelectors := itemSelectors + [r.selectorText];
        } else if r.display == "book-UI" {
          uiSelectors := uiSelectors + [r.selectorText];
        }
      }
    }

    /** The loop over `styleSheet.cssRules` and, for `@media eink`, over its rules. */
    method VisitSheet(rules: seq<Rule>)
      modifies this
      ensures State() == AddRules(old(State()), rules)
    {
      var j := 0;
      while j < |rules|
        invariant 0 <= j <= |rules|
        invariant State() == AddRules(old(State()), rules[..j])
      {
        assert rules[..j + 1][..j] == rules[..j];
        var rule := rules[j];
        if rule.MediaRule? && rule.mediaText == "eink" {
          einkRules := einkRules + [rule];
          ghost var start := State();
          var k := 0;
          while k < |rule.rules|
            invariant 0 <= k <= |rule.rules|
            invariant State() == AddInners(start, rule.rules[..k])
          {
            assert rule.rules[..k + 1][..k] == rule.rules[..k];
            VisitInner(rule.rules[k]);
            k := k + 1;
          }
          assert rule.rules[..k] == rule.rules;
        }
        j := j + 1;
      }
      assert rules[..j] == rules;
    }

    /** `#processEinkMediaQueries` */
    method ProcessEinkMediaQueries(sheets: seq<StyleSheet>)
      modifies this
      ensures State() == AddSheets(old(State()), sheets)
    {
      var i := 0;
      while i < |sheets|
        invariant 0 <= i <= |sheets|
        invariant State() == AddSheets(old(State()), sheets[..i])
      {
        assert sheets[..i + 1][..i] == sheets[..i];
        if sheets[i].Readable? {
          VisitSheet(sheets[i].cssRules);
        }
        i := i + 1;
      }
      assert sheets[..i] == sheets;
    }
  }
}
