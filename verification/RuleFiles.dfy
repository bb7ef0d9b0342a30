/** Audit rule files: the rules they hold, and the merged rule list. */
module RuleFiles {
  import opened Wrappers
  import opened Text
  import opened StringOrder

  // ---------------------------------------------------------------------------
  // Merging
  // ---------------------------------------------------------------------------

  datatype AuditRuleFile = AuditRuleFile(name: string, content: string)

  predicate IsRule(line: string) {
    var text := Trim(line);
    text != "" && text[0] != '#'
  }

  function RulesIn(lines: seq<string>): (rules: seq<string>)
    ensures forall x :: x in rules <==> x in lines && IsRule(x)
  {
    if lines == [] then []
    else
      assert lines == [lines[0]] + lines[1..];
      (if IsRule(lines[0]) then [lines[0]] else []) + RulesIn(lines[1..])
  }

  /** The rule lines of one file, as they stand. */
  function Rules(file: AuditRuleFile): seq<string> {
    RulesIn(Lines(file.content))
  }

  /** A line is a rule unless it is blank or its first character that is not blank
      starts a comment. */
  lemma RuleLine(line: string)
    ensures IsRule(line) <==> exists k: nat :: FirstInk(line, k) && line[k] != '#'
  {
    hide Trim, IsBlank, IsWhitespace;
    if IsBlank(line) {
      forall k: nat ensures !FirstInk(line, k) { BlankHasNoInk(line, k); }
    } else {
      var k := HasFirstInk(line);
      TrimStartsAt(line, k);
      forall j: nat | FirstInk(line, j) ensures line[j] == line[k] { TrimStartsAt(line, j); }
    }
  }

  predicate RuleOf(files: seq<AuditRuleFile>, x: string) {
    exists i | 0 <= i < |files| :: x in Rules(files[i])
  }

  /** Collect, sort, drop neighbouring repeats. */
  method MergeRules(files: seq<AuditRuleFile>) returns (rules: seq<string>)
    ensures StrictlySorted(rules)
    ensures forall x :: x in rules <==> RuleOf(files, x)
  {
    hide Rules, Sort;
    var all: seq<string> := [];
    for i := 0 to |files|
      invariant forall x :: x in all <==> RuleOf(files[..i], x)
    {
      forall x ensures x in all + Rules(files[i]) <==> RuleOf(files[..i + 1], x) {
        RuleOfNext(files, i, x);
      }
      all := all + Rules(files[i]);
    }
    assert files[..|files|] == files;
    var sorted := Sort(all);
    SortSorts(all);
    rules := [];
    for i := 0 to |sorted|
      invariant StrictlySorted(rules)
      invariant forall x :: x in rules <==> x in sorted[..i]
      invariant rules != [] ==> i > 0 && rules[|rules| - 1] == sorted[i - 1]
      invariant rules == [] ==> i == 0
    {
      assert sorted[..i + 1] == sorted[..i] + [sorted[i]];
      if rules == [] || rules[|rules| - 1] != sorted[i] {
        if rules != [] { LastIsLess(rules, sorted[i]); }
        rules := rules + [sorted[i]];
      }
    }
    assert sorted[..|sorted|] == sorted;
    forall x ensures x in rules <==> RuleOf(files, x) { SortKeepsMembers(all, x); }
  }

  lemma RuleOfNext(files: seq<AuditRuleFile>, i: nat, x: string)
    requires i < |files|
    ensures RuleOf(files[..i + 1], x) <==> RuleOf(files[..i], x) || x in Rules(files[i])
  {
    hide Rules;
    var next := files[..i + 1];
    if RuleOf(files[..i], x) {
      var j :| 0 <= j < i && x in Rules(files[..i][j]);
      assert next[j] == files[..i][j];
    }
    if x in Rules(files[i]) { assert next[i] == files[i]; }
    if RuleOf(next, x) {
      var j :| 0 <= j <= i && x in Rules(next[j]);
      if j < i { assert files[..i][j] == next[j]; }
    }
  }

  lemma LastIsLess(rules: seq<string>, x: string)
    requires rules != [] && StrictlySorted(rules) && Less(rules[|rules| - 1], x)
    ensures StrictlySorted(rules + [x])
  {
    var n := |rules| - 1;
    forall i | 0 <= i < n ensures Less(rules[i], x) { LessTransitive(rules[i], rules[n], x); }
  }

  /** The merged list depends on which rules the files hold, and on nothing else:
      not on the order of the files nor on how often one appears. */
  lemma MergeDetermined(files: seq<AuditRuleFile>, others: seq<AuditRuleFile>,
                        rules: seq<string>, otherRules: seq<string>)
    requires forall f :: f in files <==> f in others
    requires StrictlySorted(rules) && forall x :: x in rules <==> RuleOf(files, x)
    requires StrictlySorted(otherRules) && forall x :: x in otherRules <==> RuleOf(others, x)
    ensures rules == otherRules
  {
    forall x ensures x in rules <==> x in otherRules {
      RuleOfMember(files, x);
      RuleOfMember(others, x);
    }
    StrictlySortedUnique(rules, otherRules);
  }

  lemma RuleOfMember(files: seq<AuditRuleFile>, x: string)
    ensures RuleOf(files, x) <==> exists f :: f in files && x in Rules(f)
  {
    hide Rules;
    if RuleOf(files, x) {
      var i :| 0 <= i < |files| && x in Rules(files[i]);
      assert files[i] in files;
    }
    if f :| f in files && x in Rules(f) {
      var i :| 0 <= i < |files| && files[i] == f;
      assert RuleOf(files, x);
    }
  }
}
