/** The style undo log of `BookEditor` (Book.js:3120-3434). Every inline style the
    book writes goes through `changeStyle`, which records, per element, the value a
    property had before the book first touched it; `recoverAllEdits` writes those
    values back, removes the elements the book created, and empties the log.
    Elements are numbered; an element's inline style is a map from camel-case
    property names to values, where an absent property reads as "". Edits through
    jQuery selector strings are not part of this model. */
module StyleLog {
  import opened Wrappers
  import opened JsStrings

  // ---------------------------------------------------------------------------
  // toCamelCase (Book.js:3128-3130)

  /** `w.slice(0, 1).toUpperCase() + w.slice(1)` */
  function Capitalize(w: string): (r: string)
    ensures |r| == |w|
    ensures '-' !in w ==> '-' !in r
  {
    if w == [] then [] else [AsciiUpper(w[0])] + w[1..]
  }

  /** `parts.reduce((result, word) => result + Capitalize(word))`: the first piece
      is kept as it is. */
  function CamelJoin(parts: seq<string>): (r: string)
    requires |parts| >= 1
    ensures (forall i :: 0 <= i < |parts| ==> '-' !in parts[i]) ==> '-' !in r
  {
    if |parts| == 1 then parts[0]
    else CamelJoin(parts[..|parts| - 1]) + Capitalize(parts[|parts| - 1])
  }

  /** `toCamelCase(key)`: the inline-style property a style-rule key writes. */
  function CamelCase(key: string): (r: string)
    ensures '-' !in r
    ensures '-' !in key ==> r == key
  {
    CamelJoin(Split(key, '-'))
  }

  lemma CamelCaseIdempotent(key: string)
    ensures CamelCase(CamelCase(key)) == CamelCase(key)
  {
  }

  /** The two spellings the book uses for the top margin write the same property. */
  lemma CamelCaseOfMarginTop()
    ensures CamelCase("margin-top") == "marginTop"
  {
    CamelCaseOfTwoWords("margin", "top");
    assert "margin" + "-" + "top" == "margin-top";
    assert Capitalize("top") == "Top";
    assert "margin" + "Top" == "marginTop";
  }

  /** A key of two dash-joined words is the first word followed by the second,
      capitalized. */
  lemma CamelCaseOfTwoWords(a: string, b: string)
    requires '-' !in a && '-' !in b
    ensures CamelCase(a + "-" + b) == a + Capitalize(b)
  {
    var parts := [a, b];
    assert parts[1..] == [b];
    assert parts[..1] == [a];
    assert Join(parts, '-') == a + "-" + b;
    SplitOfJoin(parts, '-');
    assert CamelJoin(parts) == CamelJoin([a]) + Capitalize(b);
  }

  // ---------------------------------------------------------------------------
  // the editor's state

  type ElemId = nat

  /** A style-rules object, as (key, value) pairs in its key order. */
  type Rules = seq<(string, string)>

  /** One entry of an element's record of original values: a key and the value its
      property had. */
  type Record = seq<(string, string)>

  /** `styles`: the inline styles of elements; `present`: the elements in the
      document; `changed`: `_changedElems`; `inits`: each element's
      `initStyles_<id>` record; `isNew`: each element's `isNewElem` flag. */
  datatype EditorState = EditorState(
    styles: map<ElemId, map<string, string>>,
    present: set<ElemId>,
    changed: seq<ElemId>,
    inits: map<ElemId, Record>,
    isNew: map<ElemId, bool>)

  /** `elem.style[p]` */
  function StyleOf(st: EditorState, e: ElemId, p: string): string {
    if e in st.styles && p in st.styles[e] then st.styles[e][p] else ""
  }

  /** `elem.style[p] = v` */
  function WithStyle(st: EditorState, e: ElemId, p: string, v: string): (r: EditorState)
    ensures StyleOf(r, e, p) == v
    ensures forall e', q :: (e' != e || q != p) ==> StyleOf(r, e', q) == StyleOf(st, e', q)
    ensures r.present == st.present && r.changed == st.changed && r.inits == st.inits && r.isNew == st.isNew
  {
    var m := if e in st.styles then st.styles[e] else map[];
    st.(styles := st.styles[e := m[p := v]])
  }

  function RecordOf(st: EditorState, e: ElemId): Record {
    if e in st.inits then st.inits[e] else []
  }

  predicate Recorded(rec: Record, key: string) {
    exists i :: 0 <= i < |rec| && rec[i].0 == key
  }

  predicate IsNewElem(st: EditorState, e: ElemId) {
    e in st.isNew && st.isNew[e]
  }

  // ---------------------------------------------------------------------------
  // changeStyle (Book.js:3171-3207), with the record keyed by property

  /** One rule on an element already in the log: the property is recorded if it
      was not yet, then written. */
  function ChangeRule(st: EditorState, e: ElemId, rule: (string, string)): (r: EditorState)
    ensures r.present == st.present && r.changed == st.changed && r.isNew == st.isNew
    ensures forall e', q :: e' != e ==> StyleOf(r, e', q) == StyleOf(st, e', q)
    ensures forall e' :: e' != e ==> RecordOf(r, e') == RecordOf(st, e') && (e' in r.inits <==> e' in st.inits)
  {
    var p := CamelCase(rule.0);
    var rec := RecordOf(st, e);
    var rec' := if Recorded(rec, p) then rec else rec + [(p, StyleOf(st, e, p))];
    WithStyle(st.(inits := st.inits[e := rec']), e, p, rule.1)
  }

  function ChangeRules(st: EditorState, e: ElemId, rules: Rules): (r: EditorState)
    ensures r.present == st.present && r.changed == st.changed && r.isNew == st.isNew
    ensures forall e', q :: e' != e ==> StyleOf(r, e', q) == StyleOf(st, e', q)
    ensures forall e' :: e' != e ==> RecordOf(r, e') == RecordOf(st, e') && (e' in r.inits <==> e' in st.inits)
  {
    if rules == [] then st
    else ChangeRule(ChangeRules(st, e, rules[..|rules| - 1]), e, rules[|rules| - 1])
  }

  /** The state after `changeStyle(e, rules, isNewElem)`: an element not yet in the log
      gets its `isNewElem` flag and is appended to the log; an existing record of it
      is kept (`if (!elem[initStr]) elem[initStr] = {}`). */
  function AfterChangeStyle(st: EditorState, e: ElemId, rules: Rules, isNewElem: bool): EditorState {
    if e in st.changed then ChangeRules(st, e, rules)
    else
      var st1 := st.(isNew := st.isNew[e := isNewElem], inits := st.inits[e := RecordOf(st, e)]);
      var st2 := ChangeRules(st1, e, rules);
      st2.(changed := st2.changed + [e])
  }

  // ---------------------------------------------------------------------------
  // recoverAllEdits (Book.js:3306-3342)

  /** Writing an element's record back, in record order (`for (const style in ...)`). */
  function Restore(st: EditorState, e: ElemId, rec: Record): (r: EditorState)
    ensures r.present == st.present && r.changed == st.changed && r.inits == st.inits && r.isNew == st.isNew
    ensures forall e', q :: e' != e ==> StyleOf(r, e', q) == StyleOf(st, e', q)
  {
    if rec == [] then st
    else
      var last := rec[|rec| - 1];
      WithStyle(Restore(st, e, rec[..|rec| - 1]), e, CamelCase(last.0), last.1)
  }

  /** One element of the log: a created element is removed, any other gets its
      record written back and loses its record and flag. */
  function RecoverOne(st: EditorState, e: ElemId): (r: EditorState)
    ensures r.changed == st.changed
    ensures forall e', q :: e' != e ==> StyleOf(r, e', q) == StyleOf(st, e', q)
    ensures forall e' :: e' != e ==>
      RecordOf(r, e') == RecordOf(st, e') && (e' in r.present <==> e' in st.present) && (IsNewElem(r, e') <==> IsNewElem(st, e'))
  {
    if IsNewElem(st, e) then st.(present := st.present - {e})
    else
      var st1 := Restore(st, e, RecordOf(st, e));
      st1.(inits := st1.inits - {e}, isNew := st1.isNew - {e})
  }

  /** The log entries `es` processed in order. */
  function RecoverSeq(st: EditorState, es: seq<ElemId>): (r: EditorState)
    ensures r.changed == st.changed
  {
    if es == [] then st else RecoverOne(RecoverSeq(st, es[..|es| - 1]), es[|es| - 1])
  }

  function AfterRecovery(st: EditorState): (r: EditorState)
    ensures r.changed == []
  {
    RecoverSeq(st, st.changed).(changed := [])
  }

  // ---------------------------------------------------------------------------
  // the undo round trip

  /** A `changeStyle` call. */
  datatype Change = Change(elem: ElemId, rules: Rules, isNewElem: bool)

  /** The state after the calls `ops`, in order. */
  function ApplyAll(st: EditorState, ops: seq<Change>): EditorState {
    if ops == [] then st
    else
      var op := ops[|ops| - 1];
      AfterChangeStyle(ApplyAll(st, ops[..|ops| - 1]), op.elem, op.rules, op.isNewElem)
  }

  /** The `isNewElem` flag of the first of `ops` that touches `e`, if any. */
  function FirstFlag(ops: seq<Change>, e: ElemId): Option<bool> {
    if ops == [] then None
    else
      var before := FirstFlag(ops[..|ops| - 1], e);
      if before.Some? then before
      else if ops[|ops| - 1].elem == e then Some(ops[|ops| - 1].isNewElem)
      else None
  }

  /** A log with nothing in it, where only elements no longer in the document keep
      a record (created elements are removed without losing theirs). */
  predicate Clean(st: EditorState) {
    st.changed == [] && forall e :: e in st.inits ==> e !in st.present
  }

  /** `e`'s record holds the values its properties had in `st0`, under their
      property names, and every property it does not hold still has that value. */
  ghost predicate Faithful(st0: EditorState, st: EditorState, e: ElemId) {
    (forall i :: 0 <= i < |RecordOf(st, e)| ==>
      '-' !in RecordOf(st, e)[i].0 && RecordOf(st, e)[i].1 == StyleOf(st0, e, RecordOf(st, e)[i].0)) &&
    (forall p :: !Recorded(RecordOf(st, e), p) ==> StyleOf(st, e, p) == StyleOf(st0, e, p))
  }

  /** What the log looks like after the calls `ops` from the clean state `st0`. */
  ghost predicate LogInv(st0: EditorState, st: EditorState, ops: seq<Change>) {
    st.present == st0.present &&
    forall e :: e in st0.present ==>
      Faithful(st0, st, e) &&
      (e in st.changed <==> FirstFlag(ops, e).Some?) &&
      (e in st.changed ==> (IsNewElem(st, e) <==> FirstFlag(ops, e) == Some(true))) &&
      (e !in st.changed ==> e !in st.inits)
  }

  lemma ChangeRuleFaithful(st0: EditorState, st: EditorState, e: ElemId, rule: (string, string))
    requires Faithful(st0, st, e)
    ensures Faithful(st0, ChangeRule(st, e, rule), e)
  {
    var p := CamelCase(rule.0);
    var rec := RecordOf(st, e);
    var rec' := if Recorded(rec, p) then rec else rec + [(p, StyleOf(st, e, p))];
    var r := ChangeRule(st, e, rule);
    assert RecordOf(r, e) == rec';
    assert Recorded(rec', p) by {
      if !Recorded(rec, p) {
        assert rec'[|rec|].0 == p;
      }
    }
    assert forall i :: 0 <= i < |rec| ==> rec'[i] == rec[i];
    forall q | !Recorded(rec', q)
      ensures StyleOf(r, e, q) == StyleOf(st0, e, q)
    {
      assert !Recorded(rec, q);
      assert q != p;
    }
  }

  lemma {:induction false} ChangeRulesFaithful(st0: EditorState, st: EditorState, e: ElemId, rules: Rules)
    requires Faithful(st0, st, e)
    ensures Faithful(st0, ChangeRules(st, e, rules), e)
    decreases |rules|
  {
    if rules != [] {
      ChangeRulesFaithful(st0, st, e, rules[..|rules| - 1]);
      ChangeRuleFaithful(st0, ChangeRules(st, e, rules[..|rules| - 1]), e, rules[|rules| - 1]);
    }
  }

  lemma FirstFlagStep(ops: seq<Change>, op: Change, e: ElemId)
    ensures FirstFlag(ops + [op], e) ==
      if FirstFlag(ops, e).Some? then FirstFlag(ops, e) else if op.elem == e then Some(op.isNewElem) else None
  {
    assert (ops + [op])[..|ops|] == ops;
  }

  /** The element a `changeStyle` call touches keeps a faithful record. */
  lemma ChangeKeepsTouchedFaithful(st0: EditorState, st: EditorState, op: Change)
    requires Faithful(st0, st, op.elem)
    ensures Faithful(st0, AfterChangeStyle(st, op.elem, op.rules, op.isNewElem), op.elem)
  {
    var e := op.elem;
    var st1 := if e in st.changed then st else st.(isNew := st.isNew[e := op.isNewElem], inits := st.inits[e := RecordOf(st, e)]);
    assert forall q :: StyleOf(st1, e, q) == StyleOf(st, e, q);
    assert RecordOf(st1, e) == RecordOf(st, e);
    ChangeRulesFaithful(st0, st1, e, op.rules);
    var m := ChangeRules(st1, e, op.rules);
    var r := AfterChangeStyle(st, e, op.rules, op.isNewElem);
    assert r.styles == m.styles && r.inits == m.inits;
    assert forall q :: StyleOf(r, e, q) == StyleOf(m, e, q);
    assert RecordOf(r, e) == RecordOf(m, e);
  }

  /** The other elements are not affected by a `changeStyle` call. */
  lemma ChangeLeavesOthers(st: EditorState, op: Change, e': ElemId)
    requires e' != op.elem
    ensures var r := AfterChangeStyle(st, op.elem, op.rules, op.isNewElem);
      RecordOf(r, e') == RecordOf(st, e') && (e' in r.inits <==> e' in st.inits) &&
      (IsNewElem(r, e') <==> IsNewElem(st, e')) && (e' in r.changed <==> e' in st.changed) &&
      r.present == st.present && forall q :: StyleOf(r, e', q) == StyleOf(st, e', q)
  {
    var e := op.elem;
    var st1 := if e in st.changed then st else st.(isNew := st.isNew[e := op.isNewElem], inits := st.inits[e := RecordOf(st, e)]);
    assert RecordOf(st1, e') == RecordOf(st, e');
    assert forall q :: StyleOf(st1, e', q) == StyleOf(st, e', q);
    var m := ChangeRules(st1, e, op.rules);
    var r := AfterChangeStyle(st, e, op.rules, op.isNewElem);
    assert r.styles == m.styles && r.inits == m.inits && r.isNew == m.isNew;
    assert forall q :: StyleOf(r, e', q) == StyleOf(m, e', q);
  }

  lemma ChangePreservesLogInv(st0: EditorState, st: EditorState, ops: seq<Change>, op: Change)
    requires LogInv(st0, st, ops)
    ensures LogInv(st0, AfterChangeStyle(st, op.elem, op.rules, op.isNewElem), ops + [op])
  {
    var e := op.elem;
    var r := AfterChangeStyle(st, e, op.rules, op.isNewElem);
    assert r.changed == if e in st.changed then st.changed else st.changed + [e];
    assert r.present == st.present;
    assert e in r.changed && (e !in st.changed ==> IsNewElem(r, e) == op.isNewElem) &&
      (e in st.changed ==> IsNewElem(r, e) == IsNewElem(st, e));
    forall e' | e' in st0.present
      ensures Faithful(st0, r, e')
      ensures e' in r.changed <==> FirstFlag(ops + [op], e').Some?
      ensures e' in r.changed ==> (IsNewElem(r, e') <==> FirstFlag(ops + [op], e') == Some(true))
      ensures e' !in r.changed ==> e' !in r.inits
    {
      FirstFlagStep(ops, op, e');
      if e' == e {
        ChangeKeepsTouchedFaithful(st0, st, op);
      } else {
        ChangeLeavesOthers(st, op, e');
      }
    }
  }

  lemma {:induction false} ApplyAllLogInv(st0: EditorState, ops: seq<Change>)
    requires Clean(st0)
    ensures LogInv(st0, ApplyAll(st0, ops), ops)
    decreases |ops|
  {
    if ops != [] {
      var init := ops[..|ops| - 1];
      ApplyAllLogInv(st0, init);
      ChangePreservesLogInv(st0, ApplyAll(st0, init), init, ops[|ops| - 1]);
      assert init + [ops[|ops| - 1]] == ops;
    }
  }

  /** Writing back a faithful record restores every recorded property and leaves the
      others alone. */
  lemma {:induction false} RestoreFaithful(st0: EditorState, st: EditorState, e: ElemId, rec: Record)
    requires forall i :: 0 <= i < |rec| ==> '-' !in rec[i].0 && rec[i].1 == StyleOf(st0, e, rec[i].0)
    ensures forall q :: StyleOf(Restore(st, e, rec), e, q) == if Recorded(rec, q) then StyleOf(st0, e, q) else StyleOf(st, e, q)
    decreases |rec|
  {
    if rec != [] {
      var init := rec[..|rec| - 1];
      var last := rec[|rec| - 1];
      RestoreFaithful(st0, st, e, init);
      forall q
        ensures StyleOf(Restore(st, e, rec), e, q) == if Recorded(rec, q) then StyleOf(st0, e, q) else StyleOf(st, e, q)
      {
        if q != last.0 {
          if Recorded(rec, q) {
            var i :| 0 <= i < |rec| && rec[i].0 == q;
            assert init[i].0 == q;
          }
          if Recorded(init, q) {
            var i :| 0 <= i < |init| && init[i].0 == q;
            assert rec[i].0 == q;
          }
        } else {
          assert rec[|rec| - 1].0 == q;
        }
      }
    }
  }

  /** Processing the log entries `es` undoes `e` if it occurs in them, and leaves it
      alone otherwise. */
  lemma {:induction false} RecoverSeqEffect(st0: EditorState, st: EditorState, es: seq<ElemId>, e: ElemId)
    requires Faithful(st0, st, e)
    ensures var r := RecoverSeq(st, es);
      e !in es ==>
        RecordOf(r, e) == RecordOf(st, e) && (e in r.present <==> e in st.present) &&
        (IsNewElem(r, e) <==> IsNewElem(st, e)) && forall q :: StyleOf(r, e, q) == StyleOf(st, e, q)
    ensures var r := RecoverSeq(st, es);
      (e in es && IsNewElem(st, e) ==> e !in r.present && IsNewElem(r, e))
    ensures var r := RecoverSeq(st, es);
      e in es && !IsNewElem(st, e) ==>
        (e in r.present <==> e in st.present) && !IsNewElem(r, e) &&
        RecordOf(r, e) == [] && forall q :: StyleOf(r, e, q) == StyleOf(st0, e, q)
    decreases |es|
  {
    if es != [] {
      var init := es[..|es| - 1];
      RecoverSeqEffect(st0, st, init, e);
      var m := RecoverSeq(st, init);
      if es[|es| - 1] == e {
        if e !in init {
          if !IsNewElem(m, e) {
            RestoreFaithful(st0, m, e, RecordOf(m, e));
            forall q ensures StyleOf(Restore(m, e, RecordOf(m, e)), e, q) == StyleOf(st0, e, q) {
            }
          }
        } else if !IsNewElem(st, e) {
          assert Restore(m, e, []) == m;
        }
      } else {
        assert e in es <==> e in init;
      }
    }
  }

  /** Undo round trip: from a clean log, any sequence of `changeStyle` calls followed
      by `recoverAllEdits` empties the log, removes exactly the elements whose first
      change marked them as new, and gives every other element of the document back
      every inline style value it had before. */
  lemma UndoRoundTrip(st0: EditorState, ops: seq<Change>)
    requires Clean(st0)
    ensures AfterRecovery(ApplyAll(st0, ops)).changed == []
    ensures forall e :: e in st0.present ==>
      (FirstFlag(ops, e) == Some(true) ==> e !in AfterRecovery(ApplyAll(st0, ops)).present)
    ensures forall e, p :: e in st0.present && FirstFlag(ops, e) != Some(true) ==>
      e in AfterRecovery(ApplyAll(st0, ops)).present && StyleOf(AfterRecovery(ApplyAll(st0, ops)), e, p) == StyleOf(st0, e, p)
  {
    var st := ApplyAll(st0, ops);
    ApplyAllLogInv(st0, ops);
    var m := RecoverSeq(st, st.changed);
    forall e | e in st0.present
      ensures FirstFlag(ops, e) == Some(true) ==> e !in m.present
      ensures FirstFlag(ops, e) != Some(true) ==> e in m.present && forall p :: StyleOf(m, e, p) == StyleOf(st0, e, p)
    {
      RecoverSeqEffect(st0, st, st.changed, e);
      if e !in st.changed {
        assert RecordOf(st, e) == [];
      }
    }
  }

  /** Later changes only ever append to an element's record: a recorded original is
      never overwritten. */
  lemma {:induction false} ChangeRulesExtendRecord(st: EditorState, e: ElemId, rules: Rules)
    ensures RecordOf(st, e) <= RecordOf(ChangeRules(st, e, rules), e)
    decreases |rules|
  {
    if rules != [] {
      ChangeRulesExtendRecord(st, e, rules[..|rules| - 1]);
    }
  }

  lemma RecordsOnlyGrow(st: EditorState, e: ElemId, c: Change)
    ensures RecordOf(st, e) <= RecordOf(AfterChangeStyle(st, c.elem, c.rules, c.isNewElem), e)
  {
    var st1 := if c.elem in st.changed then st
      else st.(isNew := st.isNew[c.elem := c.isNewElem], inits := st.inits[c.elem := RecordOf(st, c.elem)]);
    assert RecordOf(st1, e) == RecordOf(st, e);
    var m := ChangeRules(st1, c.elem, c.rules);
    assert RecordOf(AfterChangeStyle(st, c.elem, c.rules, c.isNewElem), e) == RecordOf(m, e);
    if c.elem == e {
      ChangeRulesExtendRecord(st1, e, c.rules);
    }
  }

  // ---------------------------------------------------------------------------
  // changeStyle as written: the record is keyed by the rule key

  /** `obj[k] = v` on a record: an existing key keeps its place. */
  function Put(rec: Record, k: string, v: string): Record {
    if rec == [] then [(k, v)]
    else if rec[0].0 == k then [(k, v)] + rec[1..]
    else [rec[0]] + Put(rec[1..], k, v)
  }

  /** As written (Book.js:3183-3199): the original value is stored under the rule's
      own key, always for an element new to the log and only when the key is absent
      for one already in it, while the property written is its camel-case name. */
  function ChangeRuleAsWritten(st: EditorState, e: ElemId, rule: (string, string), overwrite: bool): EditorState {
    var p := CamelCase(rule.0);
    var rec := RecordOf(st, e);
    var rec' := if overwrite then Put(rec, rule.0, StyleOf(st, e, p))
                else if Recorded(rec, rule.0) then rec else rec + [(rule.0, StyleOf(st, e, p))];
    WithStyle(st.(inits := st.inits[e := rec']), e, p, rule.1)
  }

  function ChangeRulesAsWritten(st: EditorState, e: ElemId, rules: Rules, overwrite: bool): EditorState {
    if rules == [] then st
    else ChangeRuleAsWritten(ChangeRulesAsWritten(st, e, rules[..|rules| - 1], overwrite), e, rules[|rules| - 1], overwrite)
  }

  function AfterChangeStyleAsWritten(st: EditorState, e: ElemId, rules: Rules, isNewElem: bool): EditorState {
    if e in st.changed then ChangeRulesAsWritten(st, e, rules, false)
    else
      var st1 := st.(isNew := st.isNew[e := isNewElem], inits := st.inits[e := RecordOf(st, e)]);
      var st2 := ChangeRulesAsWritten(st1, e, rules, true);
      st2.(changed := st2.changed + [e])
  }

  /** The example of the finding: an element whose top margin is "10px". */
  function MarginExample(): EditorState {
    EditorState(map[1 := map["marginTop" := "10px"]], {1}, [], map[], map[])
  }

  lemma MixedSpellingsFirstEdit()
    ensures var st1 := AfterChangeStyleAsWritten(MarginExample(), 1, [("margin-top", "0px")], false);
      RecordOf(st1, 1) == [("margin-top", "10px")] && StyleOf(st1, 1, "marginTop") == "0px" &&
      st1.changed == [1] && !IsNewElem(st1, 1)
  {
    CamelCaseOfMarginTop();
    var st0 := MarginExample();
    var st1 := st0.(isNew := st0.isNew[1 := false], inits := st0.inits[1 := []]);
    var rules := [("margin-top", "0px")];
    assert rules[..0] == [];
    assert ChangeRulesAsWritten(st1, 1, rules, true) == ChangeRuleAsWritten(st1, 1, ("margin-top", "0px"), true);
    assert StyleOf(st1, 1, "marginTop") == "10px";
    assert Put([], "margin-top", "10px") == [("margin-top", "10px")];
    var st1' := st1.(inits := st1.inits[1 := [("margin-top", "10px")]]);
    assert ChangeRuleAsWritten(st1, 1, ("margin-top", "0px"), true) == WithStyle(st1', 1, "marginTop", "0px");
  }

  lemma MixedSpellingsSecondEdit(st1: EditorState)
    requires RecordOf(st1, 1) == [("margin-top", "10px")] && StyleOf(st1, 1, "marginTop") == "0px"
    requires st1.changed == [1] && !IsNewElem(st1, 1)
    ensures var st2 := AfterChangeStyleAsWritten(st1, 1, [("marginTop", "5px")], false);
      RecordOf(st2, 1) == [("margin-top", "10px"), ("marginTop", "0px")] && st2.changed == [1] && !IsNewElem(st2, 1)
  {
    var rec := RecordOf(st1, 1);
    assert rec[0].0 != "marginTop";
    assert !Recorded(rec, "marginTop");
    assert CamelCase("marginTop") == "marginTop";
    var rules := [("marginTop", "5px")];
    assert rules[..0] == [];
    assert ChangeRulesAsWritten(st1, 1, rules, false) == ChangeRuleAsWritten(st1, 1, ("marginTop", "5px"), false);
    var st1' := st1.(inits := st1.inits[1 := rec + [("marginTop", "0px")]]);
    assert ChangeRuleAsWritten(st1, 1, ("marginTop", "5px"), false) == WithStyle(st1', 1, "marginTop", "5px");
  }

  lemma MixedSpellingsRecovery(st2: EditorState)
    requires RecordOf(st2, 1) == [("margin-top", "10px"), ("marginTop", "0px")] && st2.changed == [1] && !IsNewElem(st2, 1)
    ensures StyleOf(AfterRecovery(st2), 1, "marginTop") == "0px"
  {
    CamelCaseOfMarginTop();
    assert [1][..0] == [];
    assert RecoverSeq(st2, [1]) == RecoverOne(st2, 1);
    var rec := RecordOf(st2, 1);
    assert rec[..1] == [("margin-top", "10px")];
    assert rec[..1][..0] == [];
  }

  /** As written, setting the top margin as "margin-top" and then as "marginTop"
      records the first edit's value under the second key, and recovery writes it
      back last: the original "10px" is lost. */
  lemma MixedSpellingsAsWritten()
    ensures var st1 := AfterChangeStyleAsWritten(MarginExample(), 1, [("margin-top", "0px")], false);
      var st2 := AfterChangeStyleAsWritten(st1, 1, [("marginTop", "5px")], false);
      StyleOf(MarginExample(), 1, "marginTop") == "10px" && StyleOf(AfterRecovery(st2), 1, "marginTop") == "0px"
  {
    MixedSpellingsFirstEdit();
    var st1 := AfterChangeStyleAsWritten(MarginExample(), 1, [("margin-top", "0px")], false);
    MixedSpellingsSecondEdit(st1);
    MixedSpellingsRecovery(AfterChangeStyleAsWritten(st1, 1, [("marginTop", "5px")], false));
  }

  // ---------------------------------------------------------------------------
  // recovery removes every created element

  /** An element the log marks as created is out of the document once the log has
      been processed, whatever else the log holds. */
  lemma {:induction false} RecoverSeqRemovesCreated(st: EditorState, es: seq<ElemId>, e: ElemId)
    requires e in es && IsNewElem(st, e)
    ensures e !in RecoverSeq(st, es).present && IsNewElem(RecoverSeq(st, es), e)
    decreases |es|
  {
    var init := es[..|es| - 1];
    if e in init {
      RecoverSeqRemovesCreated(st, init, e);
    } else {
      assert es[|es| - 1] == e;
      RecoverSeqKeepsOther(st, init, e);
    }
  }

  /** Processing log entries other than `e` does not touch `e`'s flag or presence. */
  lemma {:induction false} RecoverSeqKeepsOther(st: EditorState, es: seq<ElemId>, e: ElemId)
    requires e !in es
    ensures (e in RecoverSeq(st, es).present <==> e in st.present) && (IsNewElem(RecoverSeq(st, es), e) <==> IsNewElem(st, e))
    ensures RecordOf(RecoverSeq(st, es), e) == RecordOf(st, e)
    decreases |es|
  {
    if es != [] {
      RecoverSeqKeepsOther(st, es[..|es| - 1], e);
    }
  }

  // ---------------------------------------------------------------------------
  // BookEditor.addFiller's retry (Book.js:3376-3392)

  /** `parseInt(filler.style.height) + 5 + "px"`; a height that does not parse gives
      `NaN`, and `NaN + 5` is `NaN`. */
  function GrownHeight(height: string): string {
    match ParseInt(height)
    case Some(h) => IntToString(h + 5) + "px"
    case None => "NaNpx"
  }

  /** `n + "px"` */
  function Px(n: int): string {
    IntToString(n) + "px"
  }

  lemma GrownHeightOfPixels(h: int)
    ensures GrownHeight(Px(h)) == Px(h + 5)
  {
    ParseIntOfIntToString(h, "px");
  }

  /** One retry against a filler that failed `count` times before and is `height` tall:
      its new failure count, and the height it is given, or `None` when it is given
      the red border instead and `null` is returned. */
  function RetryStep(count: nat, height: string): (r: (nat, Option<string>))
    ensures r.0 == count + 1
    ensures r.1.Some? <==> count < 5
  {
    if count + 1 <= 5 then (count + 1, Some(GrownHeight(height))) else (count + 1, None)
  }

  /** The results of `k` successive retries against the same filler, where `grow`
      gives the height a filler is grown to. */
  function RetriesBy(grow: string -> string, count: nat, height: string, k: nat): (r: seq<Option<string>>)
    ensures |r| == k
    decreases k
  {
    if k == 0 then []
    else if count + 1 <= 5 then [Some(grow(height))] + RetriesBy(grow, count + 1, grow(height), k - 1)
    else [None] + RetriesBy(grow, count + 1, height, k - 1)
  }

  /** The results of `k` successive retries against the same filler; the first is
      the one `RetryStep` gives. */
  function Retries(count: nat, height: string, k: nat): (r: seq<Option<string>>)
    ensures |r| == k
    ensures k > 0 ==> r[0] == RetryStep(count, height).1
  {
    RetriesBy(GrownHeight, count, height, k)
  }

  /** `height` grown `n` times over. */
  function GrownTimes(grow: string -> string, height: string, n: nat): string {
    if n == 0 then height else grow(GrownTimes(grow, height, n - 1))
  }

  /** Growing once more before or after `n` growths is the same. */
  lemma {:induction false} GrownTimesShift(grow: string -> string, height: string, n: nat)
    ensures GrownTimes(grow, grow(height), n) == GrownTimes(grow, height, n + 1)
  {
    if n > 0 {
      GrownTimesShift(grow, height, n - 1);
    }
  }

  /** When growing adds 5 pixels to any pixel height, `n` growths add `5n`. */
  lemma {:induction false} GrownTimesByFive(grow: string -> string, h: int, n: nat)
    requires forall x: int :: grow(Px(x)) == Px(x + 5)
    ensures GrownTimes(grow, Px(h), n) == Px(h + 5 * n)
  {
    if n > 0 {
      GrownTimesByFive(grow, h, n - 1);
      assert grow(Px(h + 5 * (n - 1))) == Px(h + 5 * (n - 1) + 5);
      assert h + 5 * (n - 1) + 5 == h + 5 * n;
    }
  }

  /** `GrownHeight` adds 5 pixels to any pixel height. */
  lemma GrownHeightAddsFive()
    ensures forall x: int :: GrownHeight(Px(x)) == Px(x + 5)
  {
    forall x: int
      ensures GrownHeight(Px(x)) == Px(x + 5)
    {
      GrownHeightOfPixels(x);
    }
  }

  /** The `i`-th of `k` retries against a filler of height `height` that failed
      `count` times, by induction on `i`. */
  lemma {:induction false} RetryAt(grow: string -> string, count: nat, height: string, k: nat, i: nat)
    requires i < k
    ensures RetriesBy(grow, count, height, k)[i] == if count + i < 5 then Some(GrownTimes(grow, height, i + 1)) else None
    decreases i
  {
    if count >= 5 {
      RetriesGiveUp(grow, count, height, k);
    } else {
      var rest := RetriesBy(grow, count + 1, grow(height), k - 1);
      assert RetriesBy(grow, count, height, k) == [Some(grow(height))] + rest;
      if i == 0 {
        assert GrownTimes(grow, height, 1) == grow(height);
      } else {
        assert RetriesBy(grow, count, height, k)[i] == rest[i - 1];
        RetryAt(grow, count + 1, grow(height), k - 1, i - 1);
        GrownTimesShift(grow, height, i);
      }
    }
  }

  /** Past five failures every retry gives up. */
  lemma {:induction false} RetriesGiveUp(grow: string -> string, count: nat, height: string, k: nat)
    requires count >= 5
    ensures forall i :: 0 <= i < k ==> RetriesBy(grow, count, height, k)[i] == None
    decreases k
  {
    if k > 0 {
      RetriesGiveUp(grow, count + 1, height, k - 1);
      assert RetriesBy(grow, count, height, k) == [None] + RetriesBy(grow, count + 1, height, k - 1);
    }
  }

  /** Retries against a filler `h` pixels tall that failed `count` times: while the
      failure count stays at most 5 each retry grows it by 5 more pixels; every
      later retry gives up. */
  lemma RetriesGrowByFive(count: nat, h: int, k: nat)
    ensures forall i :: 0 <= i < k ==>
      Retries(count, Px(h), k)[i] == if count + i < 5 then Some(Px(h + 5 * i + 5)) else None
  {
    GrownHeightAddsFive();
    forall i | 0 <= i < k
      ensures Retries(count, Px(h), k)[i] == if count + i < 5 then Some(Px(h + 5 * i + 5)) else None
    {
      RetryByFiveAt(GrownHeight, count, h, k, i);
    }
  }

  /** One of the retries `RetriesGrowByFive` describes, for any `grow` that adds 5
      pixels to every pixel height. */
  lemma RetryByFiveAt(grow: string -> string, count: nat, h: int, k: nat, i: nat)
    requires forall x: int :: grow(Px(x)) == Px(x + 5)
    requires i < k
    ensures RetriesBy(grow, count, Px(h), k)[i] == if count + i < 5 then Some(Px(h + 5 * i + 5)) else None
  {
    RetryAt(grow, count, Px(h), k, i);
    GrownTimesByFive(grow, h, i + 1);
    assert h + 5 * (i + 1) == h + 5 * i + 5;
  }

  /** A fresh filler `h` pixels tall: the first five retries return it, 5, 10, ... 25
      pixels taller; the sixth and every later one return `null`. */
  lemma FreshFillerRetries(h: int, k: nat)
    ensures forall i :: 0 <= i < k ==>
      Retries(0, Px(h), k)[i] == if i < 5 then Some(Px(h + 5 * i + 5)) else None
  {
    RetriesGrowByFive(0, h, k);
  }

  /** The top margins zeroed below a new filler, one element after the other. */
  function ZeroTopMargins(st: EditorState, chain: seq<ElemId>): EditorState {
    if chain == [] then st
    else AfterChangeStyle(ZeroTopMargins(st, chain[..|chain| - 1]), chain[|chain| - 1], [("margin-top", "0px")], false)
  }

  /** The rules a new filler is created with. */
  function FillerRules(fillerHeight: int): Rules {
    [("height", Px(fillerHeight)), ("margin-top", "0px"), ("margin-bottom", "0px")]
  }

  // ---------------------------------------------------------------------------
  // the editor object

  /** A `BookEditor` together with the part of the document it edits. `classes` and
      `failedCount` are the `classList` and `failedCount` of elements. */
  class BookEditor {
    var styles: map<ElemId, map<string, string>>
    var present: set<ElemId>
    var changed: seq<ElemId>
    var inits: map<ElemId, Record>
    var isNew: map<ElemId, bool>
    var classes: map<ElemId, set<string>>
    var failedCount: map<ElemId, nat>

    function State(): EditorState
      reads this
    {
      EditorState(styles, present, changed, inits, isNew)
    }

    constructor(st: EditorState, classes: map<ElemId, set<string>>)
      ensures State() == st && this.classes == classes && failedCount == map[]
    {
      styles := st.styles;
      present := st.present;
      changed := st.changed;
      inits := st.inits;
      isNew := st.isNew;
      this.classes := classes;
      failedCount := map[];
    }

    function ClassesOf(e: ElemId): set<string>
      reads this
    {
      if e in classes then classes[e] else {}
    }

    function FailedCountOf(e: ElemId): nat
      reads this
    {
      if e in failedCount then failedCount[e] else 0
    }

    /** `changeStyle(elem, styleRules, isNewElem)` on one element. */
    method ChangeStyle(e: ElemId, rules: Rules, isNewElem: bool)
      modifies this
      ensures State() == AfterChangeStyle(old(State()), e, rules, isNewElem)
      ensures classes == old(classes) && failedCount == old(failedCount)
    {
      var existing := e in changed;
      if !existing {
        isNew := isNew[e := isNewElem];
        inits := inits[e := RecordOf(State(), e)];
      }
      ghost var st1 := State();
      var i := 0;
      while i < |rules|
        invariant 0 <= i <= |rules|
        invariant State() == ChangeRules(st1, e, rules[..i])
        invariant classes == old(classes) && failedCount == old(failedCount)
      {
        ChangeRuleOf(e, rules[i]);
        assert rules[..i + 1][..i] == rules[..i];
        i := i + 1;
      }
      assert rules[..i] == rules;
      if !existing {
        assert st1 == old(State()).(isNew := old(isNew)[e := isNewElem], inits := old(inits)[e := RecordOf(old(State()), e)]);
        changed := changed + [e];
      } else {
        assert st1 == old(State());
      }
    }

    /** One rule of `changeStyle`'s loop: record the property's value unless it is
        recorded already, then write the rule's value. */
    method ChangeRuleOf(e: ElemId, rule: (string, string))
      modifies this
      ensures State() == ChangeRule(old(State()), e, rule)
      ensures classes == old(classes) && failedCount == old(failedCount)
    {
      var p := CamelCase(rule.0);
      var rec := if e in inits then inits[e] else [];
      if !Recorded(rec, p) {
        rec := rec + [(p, StyleOf(State(), e, p))];
      }
      inits := inits[e := rec];
      var m := if e in styles then styles[e] else map[];
      styles := styles[e := m[p := rule.1]];
    }

    /** Writing `rec` back into `e`'s inline style, entry by entry. */
    method RestoreRecord(e: ElemId, rec: Record)
      modifies this
      ensures State() == Restore(old(State()), e, rec)
      ensures classes == old(classes) && failedCount == old(failedCount)
    {
      ghost var st0 := State();
      var j := 0;
      while j < |rec|
        invariant 0 <= j <= |rec|
        invariant State() == Restore(st0, e, rec[..j])
        invariant classes == old(classes) && failedCount == old(failedCount)
      {
        ghost var before := State();
        var p := CamelCase(rec[j].0);
        var m := if e in styles then styles[e] else map[];
        styles := styles[e := m[p := rec[j].1]];
        assert State() == WithStyle(before, e, p, rec[j].1);
        assert rec[..j + 1][..j] == rec[..j];
        assert Restore(st0, e, rec[..j + 1]) == WithStyle(Restore(st0, e, rec[..j]), e, p, rec[j].1);
        j := j + 1;
      }
      assert rec[..j] == rec;
    }

    /** The body of `recoverAllEdits`'s loop for one logged element. */
    method RecoverElement(e: ElemId)
      modifies this
      ensures State() == RecoverOne(old(State()), e)
      ensures classes == old(classes) && failedCount == old(failedCount)
    {
      if e in isNew && isNew[e] {
        present := present - {e};
      } else {
        RestoreRecord(e, if e in inits then inits[e] else []);
        inits := inits - {e};
        isNew := isNew - {e};
      }
    }

    /** `recoverAllEdits()`: every logged element is removed if the book created it,
        and otherwise gets its record written back and loses its record and flag;
        then the log is emptied. Removing a `SUPPORT` element takes it out of the
        document like any other. */
    method RecoverAllEdits()
      modifies this
      ensures State() == AfterRecovery(old(State()))
      ensures classes == old(classes) && failedCount == old(failedCount)
    {
      ghost var st0 := State();
      var es := changed;
      var i := 0;
      while i < |es|
        invariant 0 <= i <= |es|
        invariant State() == RecoverSeq(st0, es[..i])
        invariant classes == old(classes) && failedCount == old(failedCount)
      {
        RecoverElement(es[i]);
        assert es[..i + 1][..i] == es[..i];
        i := i + 1;
      }
      assert es[..i] == es;
      changed := [];
    }

    /** `addFiller`'s retry against the filler `f` already in front of the content. */
    method RetryFiller(f: ElemId) returns (filler: Option<ElemId>)
      modifies this
      ensures var (count, grown) := RetryStep(old(FailedCountOf(f)), StyleOf(old(State()), f, "height"));
        failedCount == old(failedCount)[f := count] &&
        (grown.Some? ==>
          filler == Some(f) && classes == old(classes)[f := old(ClassesOf(f)) + {"modified"}] &&
          State() == AfterChangeStyle(old(State()), f, [("height", grown.value)], false)) &&
        (grown.None? ==>
          filler == None && classes == old(classes) &&
          State() == AfterChangeStyle(old(State()), f, [("border", "solid 1px red")], false))
    {
      ghost var st0 := State();
      ghost var step := RetryStep(FailedCountOf(f), StyleOf(st0, f, "height"));
      var count := FailedCountOf(f) + 1;
      failedCount := failedCount[f := count];
      assert State() == st0;
      if count <= 5 {
        var grown := GrownHeight(StyleOf(State(), f, "height"));
        assert step.1 == Some(grown);
        ChangeStyle(f, [("height", grown)], false);
        classes := classes[f := ClassesOf(f) + {"modified"}];
        filler := Some(f);
      } else {
        assert step.1 == None;
        ChangeStyle(f, [("border", "solid 1px red")], false);
        filler := None;
      }
    }

    /** The top margins of `chain` zeroed, one element after the other. */
    method ZeroMargins(chain: seq<ElemId>)
      modifies this
      ensures State() == ZeroTopMargins(old(State()), chain)
      ensures classes == old(classes) && failedCount == old(failedCount)
    {
      ghost var st0 := State();
      var i := 0;
      while i < |chain|
        invariant 0 <= i <= |chain|
        invariant State() == ZeroTopMargins(st0, chain[..i])
        invariant classes == old(classes) && failedCount == old(failedCount)
      {
        ChangeStyle(chain[i], [("margin-top", "0px")], false);
        assert chain[..i + 1][..i] == chain[..i];
        i := i + 1;
      }
      assert chain[..i] == chain;
    }

    /** The new filler of `addFiller`: created with its class, its height and zero
        vertical margins, given the collapsed top margin, put in the document, and
        the top margins of the element after it and its first-child chain zeroed. */
    method InsertFiller(fillerHeight: int, className: string, newElem: ElemId, marginTop: int, chain: seq<ElemId>)
      modifies this
      ensures var added := AfterChangeStyle(old(State()), newElem, FillerRules(fillerHeight), true);
        var margined := WithStyle(added, newElem, "marginTop", Px(marginTop));
        State() == ZeroTopMargins(margined.(present := margined.present + {newElem}), chain)
      ensures classes == old(classes)[newElem := {className}] && failedCount == old(failedCount)
    {
      classes := classes[newElem := {className}];
      ChangeStyle(newElem, FillerRules(fillerHeight), true);
      var m := if newElem in styles then styles[newElem] else map[];
      styles := styles[newElem := m["marginTop" := Px(marginTop)]];
      present := present + {newElem};
      ZeroMargins(chain);
    }

    /** `addFiller(content, fillerHeight, className, "beforebegin")`. `previous` is
        `content.previousElementSibling`; `newElem` is the element `createElement`
        returns; `contentMarginTop` and `previousMarginBottom` are the computed
        margins; `chain` is the filler's next sibling followed by the first-child
        chain below it. */
    method AddFiller(previous: Option<ElemId>, fillerHeight: int, className: string, newElem: ElemId,
                     contentMarginTop: int, previousMarginBottom: int, chain: seq<ElemId>)
      returns (filler: Option<ElemId>)
      requires newElem !in present && newElem !in changed && newElem !in classes && newElem !in failedCount
      modifies this
      ensures previous.Some? && className in old(ClassesOf(previous.value)) ==>
        var f := previous.value;
        var (count, grown) := RetryStep(old(FailedCountOf(f)), StyleOf(old(State()), f, "height"));
        failedCount == old(failedCount)[f := count] &&
        (grown.Some? ==>
          filler == Some(f) && classes == old(classes)[f := old(ClassesOf(f)) + {"modified"}] &&
          State() == AfterChangeStyle(old(State()), f, [("height", grown.value)], false)) &&
        (grown.None? ==>
          filler == None && classes == old(classes) &&
          State() == AfterChangeStyle(old(State()), f, [("border", "solid 1px red")], false))
      ensures !(previous.Some? && className in old(ClassesOf(previous.value))) ==>
        var marginTop := if previous.Some? && previousMarginBottom > contentMarginTop then previousMarginBottom else contentMarginTop;
        var added := AfterChangeStyle(old(State()), newElem, FillerRules(fillerHeight), true);
        var margined := WithStyle(added, newElem, "marginTop", Px(marginTop));
        filler == Some(newElem) && failedCount == old(failedCount) &&
        classes == old(classes)[newElem := {className}] &&
        State() == ZeroTopMargins(margined.(present := margined.present + {newElem}), chain)
    {
      if previous.Some? && className in ClassesOf(previous.value) {
        filler := RetryFiller(previous.value);
        return;
      }
      var marginTop := contentMarginTop;
      if previous.Some? && previousMarginBottom > contentMarginTop {
        marginTop := previousMarginBottom;
      }
      InsertFiller(fillerHeight, className, newElem, marginTop, chain);
      filler := Some(newElem);
    }
  }
}
