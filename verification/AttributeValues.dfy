/** validateAttributeValues: given values against the attribute rules of a category. */
module AttributeValues {
  import opened Common
  import opened Sorting
  import opened VariantKeys
  import opened VariantAssignments
  import opened ImportRows

  datatype Mode = VARIANT | INFO

  /** The rule the code looks up for an attribute: the last one listed for it. */
  ghost predicate RuleFor(rules: seq<Rule>, i: nat, id: string) {
    i < |rules| && rules[i].attribute.id == id && forall j :: i < j < |rules| ==> rules[j].attribute.id != id
  }

  ghost predicate HasRule(rules: seq<Rule>, id: string) {
    exists i: nat :: RuleFor(rules, i, id)
  }

  ghost predicate EntryOk(text: Text, rules: seq<Rule>, entry: AttributeValue) {
    exists i: nat :: RuleFor(rules, i, entry.attributeId) && ValidValue(text, rules[i].attribute.kind, entry.value)
  }

  ghost predicate Given(provided: seq<AttributeValue>, id: string) {
    exists j :: 0 <= j < |provided| && provided[j].attributeId == id
  }

  ghost predicate Acceptable(text: Text, rules: seq<Rule>, provided: seq<AttributeValue>, mode: Mode) {
    && (forall j :: 0 <= j < |provided| ==> EntryOk(text, rules, provided[j]))
    && (forall i :: 0 <= i < |rules| && (mode == VARIANT || rules[i].isRequired) ==>
         Given(provided, rules[i].attribute.id))
  }

  ghost predicate IsRuleMap(rules: seq<Rule>, ruleById: map<string, Rule>) {
    && (forall id :: id in ruleById <==> HasRule(rules, id))
    && (forall id, i: nat :: RuleFor(rules, i, id) ==> id in ruleById && ruleById[id] == rules[i])
  }

  lemma LookUp(text: Text, rules: seq<Rule>, ruleById: map<string, Rule>, entry: AttributeValue)
    requires IsRuleMap(rules, ruleById)
    ensures EntryOk(text, rules, entry) <==>
            var id := entry.attributeId; id in ruleById && ValidValue(text, ruleById[id].attribute.kind, entry.value)
  {
  }

  method RuleMap(rules: seq<Rule>) returns (ruleById: map<string, Rule>)
    ensures IsRuleMap(rules, ruleById)
  {
    ruleById := map[];
    for n := 0 to |rules|
      invariant IsRuleMap(rules[..n], ruleById)
    {
      RulesNext(rules[..n], rules[n]);
      assert rules[..n + 1] == rules[..n] + [rules[n]];
      ruleById := ruleById[rules[n].attribute.id := rules[n]];
    }
    assert rules[..|rules|] == rules;
  }

  lemma {:induction false} RulesNext(rules: seq<Rule>, rule: Rule)
    ensures forall id, i: nat :: RuleFor(rules + [rule], i, id) ==>
      if id == rule.attribute.id then i == |rules| else RuleFor(rules, i, id)
    ensures forall id :: HasRule(rules + [rule], id) <==> id == rule.attribute.id || HasRule(rules, id)
  {
    var longer := rules + [rule];
    assert longer[|rules|] == rule && forall j :: 0 <= j < |rules| ==> longer[j] == rules[j];
    forall id
      ensures HasRule(longer, id) <==> id == rule.attribute.id || HasRule(rules, id)
    {
      if id == rule.attribute.id {
        assert RuleFor(longer, |rules|, id);
      } else {
        if i: nat :| RuleFor(rules, i, id) {
          assert RuleFor(longer, i, id);
        }
        if i: nat :| RuleFor(longer, i, id) {
          assert RuleFor(rules, i, id);
        }
      }
    }
  }

  method ProvidedIds(provided: seq<AttributeValue>) returns (ids: set<string>)
    ensures forall id :: id in ids <==> Given(provided, id)
  {
    ids := {};
    for n := 0 to |provided|
      invariant forall id :: id in ids <==> exists j :: 0 <= j < n && provided[j].attributeId == id
    {
      ids := ids + {provided[n].attributeId};
    }
  }

  method CheckEntries(text: Text, ghost rules: seq<Rule>, ruleById: map<string, Rule>, provided: seq<AttributeValue>)
    returns (ok: bool)
    requires IsRuleMap(rules, ruleById)
    ensures ok <==> forall j :: 0 <= j < |provided| ==> EntryOk(text, rules, provided[j])
  {
    for j := 0 to |provided|
      invariant forall k :: 0 <= k < j ==> EntryOk(text, rules, provided[k])
    {
      var entry := provided[j];
      LookUp(text, rules, ruleById, entry);
      if entry.attributeId !in ruleById || !ValidValue(text, ruleById[entry.attributeId].attribute.kind, entry.value) {
        return false;
      }
    }
    ok := true;
  }

  method ValidateAttributeValues(text: Text, rules: seq<Rule>, provided: seq<AttributeValue>, mode: Mode)
    returns (r: Result<seq<AttributeValue>>)
    ensures Acceptable(text, rules, provided, mode) ==> r == Ok(provided)
    ensures !Acceptable(text, rules, provided, mode) ==> r == Err(BadRequest)
  {
    var ruleById := RuleMap(rules);
    var providedIds := ProvidedIds(provided);
    var entriesOk := CheckEntries(text, rules, ruleById, provided);
    if !entriesOk {
      return Err(BadRequest);
    }
    for i := 0 to |rules|
      invariant forall k :: 0 <= k < i && (mode == VARIANT || rules[k].isRequired) ==>
        Given(provided, rules[k].attribute.id)
    {
      if (mode == VARIANT || rules[i].isRequired) && rules[i].attribute.id !in providedIds {
        return Err(BadRequest);
      }
    }
    r := Ok(provided);
  }

  // ---------- What acceptance means for variants ----------

  function RuleIds(rules: seq<Rule>): (ids: seq<string>)
    ensures |ids| == |rules|
  {
    seq(|rules|, i requires 0 <= i < |rules| => rules[i].attribute.id)
  }

  lemma {:induction false} DistinctCount(s: seq<string>)
    ensures |set x | x in s| <= |s| && (|set x | x in s| == |s| <==> Distinct(s))
  {
    if s == [] {
    } else {
      var (init, last) := (s[..|s| - 1], s[|s| - 1]);
      DistinctCount(init);
      assert s == init + [last];
      var seen := set x | x in init;
      assert (set x | x in s) == seen + {last};
      if last in init {
        var i :| 0 <= i < |init| && init[i] == last;
        assert s[i] == s[|s| - 1];
      } else {
        assert |seen + {last}| == |seen| + 1;
        assert Distinct(init) ==> Distinct(s);
        assert Distinct(s) ==> Distinct(init);
      }
    }
  }

  lemma {:induction false} AcceptedIds(text: Text, rules: seq<Rule>, provided: seq<AttributeValue>, id: string)
    requires Acceptable(text, rules, provided, VARIANT)
    ensures id in ValueIds(provided) <==> id in RuleIds(rules)
  {
    var (have, want) := (ValueIds(provided), RuleIds(rules));
    if id in have {
      var j :| 0 <= j < |have| && have[j] == id;
      assert EntryOk(text, rules, provided[j]);
      var i: nat :| RuleFor(rules, i, id);
      assert want[i] == id;
    }
    if id in want {
      var i :| 0 <= i < |want| && want[i] == id;
      assert Given(provided, rules[i].attribute.id);
      var j :| 0 <= j < |provided| && provided[j].attributeId == id;
      assert have[j] == id;
    }
  }

  /** Accepted variant values cover exactly the rules' attributes. The code counts no repetitions: there is one
      value per attribute exactly when there are as many values as rules. */
  lemma {:induction false} AcceptedCoverRules(text: Text, rules: seq<Rule>, provided: seq<AttributeValue>)
    requires Distinct(RuleIds(rules)) && Acceptable(text, rules, provided, VARIANT)
    ensures forall id :: id in ValueIds(provided) <==> id in RuleIds(rules)
    ensures |provided| >= |rules|
    ensures |provided| == |rules| <==> Distinct(ValueIds(provided))
  {
    var (have, want) := (ValueIds(provided), RuleIds(rules));
    forall id
      ensures id in have <==> id in want
    {
      AcceptedIds(text, rules, provided, id);
    }
    assert (set x | x in have) == (set x | x in want);
    DistinctCount(have);
    DistinctCount(want);
  }

  function Without(provided: seq<AttributeValue>, id: string): seq<AttributeValue> {
    if provided == [] then []
    else (if provided[0].attributeId == id then [] else [provided[0]]) + Without(provided[1..], id)
  }

  lemma {:induction false} WithoutMeaning(provided: seq<AttributeValue>, id: string)
    ensures forall v :: v in Without(provided, id) <==> v in provided && v.attributeId != id
  {
    if provided == [] {
    } else {
      WithoutMeaning(provided[1..], id);
    }
  }

  /** Which attributes may be left out of an accepted list: those no rule demands. A variant rule always does, an
      informational one when it is required. */
  lemma {:induction false} MayBeLeftOut(text: Text, rules: seq<Rule>, provided: seq<AttributeValue>, mode: Mode,
                                        id: string)
    requires Acceptable(text, rules, provided, mode)
    ensures Acceptable(text, rules, Without(provided, id), mode) <==>
            forall r :: r in rules && r.attribute.id == id ==> mode == INFO && !r.isRequired
  {
    var rest := Without(provided, id);
    WithoutMeaning(provided, id);
    forall j | 0 <= j < |rest|
      ensures EntryOk(text, rules, rest[j])
    {
      assert rest[j] in rest;
    }
    forall i | 0 <= i < |rules|
      ensures Given(rest, rules[i].attribute.id) <==>
              Given(provided, rules[i].attribute.id) && rules[i].attribute.id != id
    {
      GivenWithout(provided, id, rules[i].attribute.id);
    }
  }

  lemma GivenWithout(provided: seq<AttributeValue>, id: string, other: string)
    ensures Given(Without(provided, id), other) <==> Given(provided, other) && other != id
  {
    var rest := Without(provided, id);
    WithoutMeaning(provided, id);
    if j :| 0 <= j < |rest| && rest[j].attributeId == other {
      assert rest[j] in provided;
    }
    if j :| 0 <= j < |provided| && provided[j].attributeId == other {
      assert provided[j] in provided;
      assert other != id ==> provided[j] in rest;
    }
  }

  /** One attribute given twice is accepted, and both values enter the key. */
  lemma RepeatedValueAccepted(text: Text, id: string, key: string, x: string, y: string)
    ensures Acceptable(text, [Rule(Attribute(id, key, TEXT), true)], [AttributeValue(id, x), AttributeValue(id, y)],
      VARIANT)
    ensures ComputeCombinationKey([AttributeValue(id, x), AttributeValue(id, y)]) ==
            if LexLeq(id + ":" + x, id + ":" + y) then (id + ":" + x) + "|" + (id + ":" + y)
            else (id + ":" + y) + "|" + (id + ":" + x)
  {
    var (rules, provided) := ([Rule(Attribute(id, key, TEXT), true)], [AttributeValue(id, x), AttributeValue(id, y)]);
    if LexLeq(id + ":" + x, id + ":" + y) {
      KeyOfTwo(provided[0], provided[1]);
    } else {
      LexIsTotalPreorder();
      KeyOfTwo(provided[1], provided[0]);
      assert multiset(provided) == multiset([provided[1], provided[0]]);
      PermutationsShareKey(provided, [provided[1], provided[0]]);
    }
    assert RuleFor(rules, 0, id);
    assert provided[0].attributeId == id;
  }
}
