/** `extract_financial_entities`: allow-listed named-entity spans, without duplicates. */
module Entities {

  /** One span reported by the named-entity recogniser: its text and its label (`ent.label_`). */
  datatype Entity = Entity(text: string, category: string)

  /** The entity labels the dashboard keeps. */
  const AllowedLabels: seq<string> := ["ORG", "GPE", "MONEY", "PRODUCT", "PERSON"]

  predicate IsFinancial(e: Entity) {
    e.category in AllowedLabels
  }

  predicate NoDuplicates(s: seq<string>) {
    forall i, j :: 0 <= i < j < |s| ==> s[i] != s[j]
  }

  /** The texts of the allow-listed entities among `ents`, as a set. */
  function FinancialTexts(ents: seq<Entity>): (texts: set<string>)
    ensures forall t :: t in texts <==> exists e :: e in ents && IsFinancial(e) && e.text == t
  {
    if ents == [] then {}
    else
      var last := ents[|ents| - 1];
      var rest := FinancialTexts(ents[..|ents| - 1]);
      assert ents == ents[..|ents| - 1] + [last];
      if IsFinancial(last) then rest + {last.text} else rest
  }

  /**
   * The recogniser's spans `ents` are scanned in order and the text of each
   * allow-listed one is added to a set; the set is then turned into a list.
   */
  method ExtractFinancialEntities(ents: seq<Entity>) returns (r: seq<string>)
    ensures NoDuplicates(r)
    ensures forall t :: t in r <==> exists e :: e in ents && IsFinancial(e) && e.text == t
    ensures |r| == |FinancialTexts(ents)|
    ensures ents == [] ==> r == []
  {
    var entities: set<string> := {};
    for i := 0 to |ents|
      invariant entities == FinancialTexts(ents[..i])
    {
      assert ents[..i + 1] == ents[..i] + [ents[i]];
      if ents[i].category in AllowedLabels {
        entities := entities + {ents[i].text};
      }
    }
    assert ents[..|ents|] == ents;
    r := ListOf(entities);
  }

  /** `list(s)`: each element of the set once, in an order the source does not fix. */
  method ListOf(s: set<string>) returns (r: seq<string>)
    ensures NoDuplicates(r)
    ensures forall t :: t in r <==> t in s
    ensures |r| == |s|
  {
    r := [];
    var rest := s;
    while rest != {}
      invariant rest <= s
      invariant NoDuplicates(r)
      invariant |r| + |rest| == |s|
      invariant forall t :: t in r <==> t in s && t !in rest
      decreases rest
    {
      var t :| t in rest;
      r := r + [t];
      rest := rest - {t};
    }
  }
}
