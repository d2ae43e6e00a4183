/** The flat tribunal selector of the search page: a fixed table of fifteen
    tribunals in two groups, and handlers that each compute the new
    selection from the current one. */
module TribunalSelector {
  import opened SeqOps

  datatype Category = Superior | Regional

  datatype Tribunal = Tribunal(id: string, name: string, acronym: string, category: Category, hasSubTribunals: bool)

  /** The selector's table (`tribunals`). */
  const Tribunals: seq<Tribunal> := [
    Tribunal("stf", "Supremo Tribunal Federal", "STF", Superior, false),
    Tribunal("stj", "Superior Tribunal de Justiça", "STJ", Superior, false),
    Tribunal("tst", "Tribunal Superior do Trabalho", "TST", Superior, false),
    Tribunal("tse", "Tribunal Superior Eleitoral", "TSE", Superior, false),
    Tribunal("stm", "Superior Tribunal Militar", "STM", Superior, false),
    Tribunal("tcu", "Tribunal de Contas da União", "TCU", Superior, false),
    Tribunal("tnu", "Turma Nacional de Uniformização", "TNU", Superior, false),
    Tribunal("tru", "Turma Regional de Uniformização", "TRU", Superior, false),
    Tribunal("cnj", "Conselho Nacional de Justiça", "CNJ", Superior, false),
    Tribunal("tj", "Tribunais de Justiça", "TJ", Regional, true),
    Tribunal("trf", "Tribunais Regionais Federais", "TRF", Regional, true),
    Tribunal("trt", "Tribunais Regionais do Trabalho", "TRT", Regional, true),
    Tribunal("tre", "Tribunais Regionais Eleitorais", "TRE", Regional, true),
    Tribunal("tjm", "Tribunais de Justiça Militar", "TJM", Regional, true),
    Tribunal("tce", "Tribunais de Contas dos Estados", "TCE", Regional, true)
  ]

  function TribunalId(t: Tribunal): string { t.id }

  /** `handleTribunalChange`: checking appends the id at the end, unchecking
      removes every occurrence of it. */
  function HandleTribunalChange(selected: seq<string>, tribunalId: string, checked: bool): (emitted: seq<string>)
    ensures checked ==> |emitted| == |selected| + 1 && emitted[..|selected|] == selected && emitted[|selected|..] == [tribunalId]
    ensures checked ==> multiset(emitted) == multiset(selected) + multiset{tribunalId}
    ensures !checked ==> tribunalId !in emitted
    ensures !checked ==> forall id :: id != tribunalId ==> multiset(emitted)[id] == multiset(selected)[id]
  {
    if checked then
      selected + [tribunalId]
    else
      WithoutCounts(selected, [tribunalId]);
      Without(selected, [tribunalId])
  }

  /** Unchecking keeps the other ids in their relative order, and leaves a
      selection without that id as it was. */
  lemma UncheckKeepsOrder(selected: seq<string>, tribunalId: string)
    ensures IsSubsequence(HandleTribunalChange(selected, tribunalId, false), selected)
    ensures tribunalId !in selected ==> HandleTribunalChange(selected, tribunalId, false) == selected
  {
    WithoutSubsequence(selected, [tribunalId]);
    if tribunalId !in selected {
      WithoutNothing(selected, [tribunalId]);
    }
  }

  /** `handleSelectAll`: every id of the table, in table order, whatever was
      selected before. */
  function HandleSelectAll(): (emitted: seq<string>)
    ensures |emitted| == |Tribunals| == 15
    ensures forall i :: 0 <= i < |Tribunals| ==> emitted[i] == Tribunals[i].id
  {
    Keys(Tribunals, TribunalId)
  }

  /** `handleDeselectAll`. */
  function HandleDeselectAll(): (emitted: seq<string>)
    ensures |emitted| == 0
  {
    []
  }

  /** `tribunals.filter(t => t.category === category)`. */
  function InCategory(table: seq<Tribunal>, category: Category): (group: seq<Tribunal>)
    ensures forall t :: t in group <==> t in table && t.category == category
  {
    if table == [] then []
    else (if table[0].category == category then [table[0]] else []) + InCategory(table[1..], category)
  }

  function SuperiorTribunals(): seq<Tribunal> { InCategory(Tribunals, Superior) }

  function RegionalTribunals(): seq<Tribunal> { InCategory(Tribunals, Regional) }

  /** Grouping distributes over concatenation. */
  lemma {:induction false} InCategoryAppend(a: seq<Tribunal>, b: seq<Tribunal>, category: Category)
    ensures InCategory(a + b, category) == InCategory(a, category) + InCategory(b, category)
  {
    if a == [] {
      assert a + b == b;
    } else {
      assert (a + b)[0] == a[0];
      assert (a + b)[1..] == a[1..] + b;
      InCategoryAppend(a[1..], b, category);
    }
  }

  /** Every entry lands in exactly one of the two groups, as often as it
      occurs in the table. */
  lemma {:induction false} CategoriesPartition(table: seq<Tribunal>)
    ensures multiset(InCategory(table, Superior)) + multiset(InCategory(table, Regional)) == multiset(table)
  {
    if table != [] {
      CategoriesPartition(table[1..]);
      assert table == [table[0]] + table[1..];
    }
  }

  /** Each group keeps table order. */
  lemma {:induction false} CategoryKeepsOrder(table: seq<Tribunal>, category: Category)
    ensures IsSubsequence(InCategory(table, category), table)
  {
    if table != [] {
      CategoryKeepsOrder(table[1..], category);
      var rest := InCategory(table[1..], category);
      if table[0].category == category {
        assert InCategory(table, category) == [table[0]] + rest;
        assert ([table[0]] + rest)[1..] == rest;
      } else {
        assert InCategory(table, category) == rest;
        if rest != [] {
          assert rest[0] in rest && rest[0] != table[0];
        }
      }
    }
  }

  /** A run of entries all in one group is kept whole by that group and
      dropped whole by the other. */
  lemma {:induction false} InCategoryUniform(table: seq<Tribunal>, category: Category, other: Category)
    requires forall i :: 0 <= i < |table| ==> table[i].category == category
    requires other != category
    ensures InCategory(table, category) == table
    ensures InCategory(table, other) == []
  {
    if table != [] {
      InCategoryUniform(table[1..], category, other);
    }
  }

  /** A table whose first `k` entries are superior and the rest regional
      splits at `k`. */
  lemma {:induction false} GroupsOfSplitTable(table: seq<Tribunal>, k: nat)
    requires k <= |table|
    requires forall i :: 0 <= i < k ==> table[i].category == Superior
    requires forall i :: k <= i < |table| ==> table[i].category == Regional
    ensures InCategory(table, Superior) == table[..k]
    ensures InCategory(table, Regional) == table[k..]
  {
    var sup, reg := table[..k], table[k..];
    assert sup + reg == table;
    InCategoryUniform(sup, Superior, Regional);
    InCategoryUniform(reg, Regional, Superior);
    InCategoryAppend(sup, reg, Superior);
    InCategoryAppend(sup, reg, Regional);
  }

  /** The selector's groups are its first nine entries (superior) and its
      last six (regional). */
  lemma SelectorGroups()
    ensures SuperiorTribunals() == Tribunals[..9] && RegionalTribunals() == Tribunals[9..]
  {
    GroupsOfSplitTable(Tribunals, 9);
  }

  /** The regional tribunals are exactly those with sub-tribunals. */
  lemma RegionalHaveSubTribunals()
    ensures forall i :: 0 <= i < |Tribunals| ==> (Tribunals[i].hasSubTribunals <==> Tribunals[i].category == Regional)
  {
  }
}
