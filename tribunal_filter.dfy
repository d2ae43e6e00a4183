/** The tribunal filter dialog: a fixed catalogue of tribunals, some with
    judging bodies ("organs"), and the dialog's own state, a working copy of
    the selected ids and the list of expanded tribunals. A selection is a
    list of ids; a tribunal counts as selected when its id and every organ id
    are in the list. */
module TribunalFilter {
  import opened Wrappers
  import opened SeqOps

  datatype Organ = Organ(id: string, name: string)

  /** A catalogue entry; `organs` is absent for tribunals without judging
      bodies. */
  datatype TribunalData = TribunalData(id: string, name: string, acronym: string, organs: Option<seq<Organ>>)

  function OrganId(o: Organ): string { o.id }

  /** The ids a tribunal's checkbox stands for: its own id, then its organs'
      ids in catalogue order. */
  function TribunalIds(t: TribunalData): (ids: seq<string>)
    ensures |ids| >= 1 && ids[0] == t.id
  {
    [t.id] + match t.organs
      case Some(organs) => Keys(organs, OrganId)
      case None => []
  }

  /** Every id of the catalogue, tribunal by tribunal, each tribunal followed
      by its organs. */
  function AllIds(table: seq<TribunalData>): seq<string>
  {
    if table == [] then []
    else TribunalIds(table[0]) + AllIds(table[1..])
  }

  /** A catalogue's id list starts with its first tribunal's id. */
  lemma AllIdsStart(table: seq<TribunalData>)
    requires table != []
    ensures AllIds(table) != [] && AllIds(table)[0] == table[0].id
  {
  }

  /** `AllIds` of a concatenated catalogue is the concatenation. */
  lemma {:induction false} AllIdsAppend(a: seq<TribunalData>, b: seq<TribunalData>)
    ensures AllIds(a + b) == AllIds(a) + AllIds(b)
  {
    if a == [] {
      assert a + b == b;
    } else {
      assert (a + b)[0] == a[0];
      assert (a + b)[1..] == a[1..] + b;
      AllIdsAppend(a[1..], b);
    }
  }

  /** Number of organs listed under a tribunal (none when `organs` is
      absent). */
  function OrganCount(t: TribunalData): nat
  {
    match t.organs
    case Some(organs) => |organs|
    case None => 0
  }

  /** A tribunal's checkbox stands for one id per organ besides its own, and
      covers every organ listed under it, in catalogue order. */
  lemma TribunalIdsCoverOrgans(t: TribunalData)
    ensures |TribunalIds(t)| == 1 + OrganCount(t)
    ensures t.organs.Some? ==>
      forall k :: 0 <= k < |t.organs.value| ==> TribunalIds(t)[k + 1] == t.organs.value[k].id
  {
  }

  /** Number of organs in the whole catalogue. */
  function TotalOrgans(table: seq<TribunalData>): nat
  {
    if table == [] then 0
    else OrganCount(table[0]) + TotalOrgans(table[1..])
  }

  /** The catalogue's id list has one entry per tribunal and one per organ. */
  lemma {:induction false} AllIdsLength(table: seq<TribunalData>)
    ensures |AllIds(table)| == |table| + TotalOrgans(table)
  {
    if table != [] {
      AllIdsLength(table[1..]);
    }
  }

  /** A tribunal's ids sit in the catalogue's list between those of the
      tribunals before it and those after it. */
  lemma {:induction false} AllIdsSplit(table: seq<TribunalData>, k: nat)
    requires k < |table|
    ensures AllIds(table) == AllIds(table[..k]) + TribunalIds(table[k]) + AllIds(table[k + 1..])
  {
    assert table == table[..k] + [table[k]] + table[k + 1..];
    AllIdsAppend(table[..k] + [table[k]], table[k + 1..]);
    AllIdsAppend(table[..k], [table[k]]);
    assert AllIds([table[k]]) == TribunalIds(table[k]) by {
      assert [table[k]][1..] == [];
    }
  }

  /** The catalogue (`tribunalsData`). */
  const TribunalsData: seq<TribunalData> := [
      TribunalData("stf", "STF", "STF", Some([
        Organ("stf-1turma", "1ª Turma"),
        Organ("stf-2turma", "2ª Turma"),
        Organ("stf-3turma", "3ª Turma"),
        Organ("stf-presidente", "Presidente"),
        Organ("stf-pleno", "Tribunal Pleno"),
        Organ("stf-outros", "Outros órgãos julgadores")
      ])),
      TribunalData("stj", "STJ", "STJ", Some([
        Organ("stj-1secao", "1ª Seção"),
        Organ("stj-1turma", "1ª Turma"),
        Organ("stj-2secao", "2ª Seção"),
        Organ("stj-2turma", "2ª Turma"),
        Organ("stj-3secao", "3ª Seção"),
        Organ("stj-3turma", "3ª Turma"),
        Organ("stj-4turma", "4ª Turma"),
        Organ("stj-5turma", "5ª Turma"),
        Organ("stj-6turma", "6ª Turma"),
        Organ("stj-corte", "Corte Especial"),
        Organ("stj-presidencia", "Presidência"),
        Organ("stj-vice", "Vice-Presidência"),
        Organ("stj-outros", "Outros órgãos julgadores")
      ])),
      TribunalData("tst", "TST", "TST", Some([
        Organ("tst-1turma", "1ª Turma"),
        Organ("tst-2turma", "2ª Turma"),
        Organ("tst-3turma", "3ª Turma"),
        Organ("tst-4turma", "4ª Turma"),
        Organ("tst-5turma", "5ª Turma"),
        Organ("tst-6turma", "6ª Turma"),
        Organ("tst-7turma", "7ª Turma"),
        Organ("tst-8turma", "8ª Turma"),
        Organ("tst-orgao", "Órgão Especial"),
        Organ("tst-presidencia", "Presidência"),
        Organ("tst-sdc", "Seção Especializada em Dissídios Coletivos"),
        Organ("tst-sdi1", "Subseção I Especializada em Dissídios Individuais"),
        Organ("tst-sdi2", "Subseção II Especializada em Dissídios Individuais"),
        Organ("tst-pleno", "Tribunal Pleno"),
        Organ("tst-vice", "Vice-Presidência"),
        Organ("tst-outros", "Outros órgãos julgadores")
      ])),
      TribunalData("tjs", "TJs", "TJs", Some([
        Organ("tj-ac", "TJ-AC"),
        Organ("tj-al", "TJ-AL"),
        Organ("tj-ap", "TJ-AP"),
        Organ("tj-am", "TJ-AM"),
        Organ("tj-ba", "TJ-BA"),
        Organ("tj-ce", "TJ-CE"),
        Organ("tj-df", "TJ-DF"),
        Organ("tj-es", "TJ-ES"),
        Organ("tj-go", "TJ-GO"),
        Organ("tj-ma", "TJ-MA"),
        Organ("tj-mt", "TJ-MT"),
        Organ("tj-ms", "TJ-MS"),
        Organ("tj-mg", "TJ-MG"),
        Organ("tj-pa", "TJ-PA"),
        Organ("tj-pb", "TJ-PB"),
        Organ("tj-pr", "TJ-PR"),
        Organ("tj-pe", "TJ-PE"),
        Organ("tj-pi", "TJ-PI"),
        Organ("tj-rj", "TJ-RJ"),
        Organ("tj-rn", "TJ-RN"),
        Organ("tj-rs", "TJ-RS"),
        Organ("tj-ro", "TJ-RO"),
        Organ("tj-rr", "TJ-RR"),
        Organ("tj-sc", "TJ-SC"),
        Organ("tj-sp", "TJ-SP"),
        Organ("tj-se", "TJ-SE"),
        Organ("tj-to", "TJ-TO")
      ])),
      TribunalData("trfs", "TRFs", "TRFs", None),
      TribunalData("trts", "TRTs", "TRTs", None),
      TribunalData("tse", "TSE", "TSE", None),
      TribunalData("tres", "TREs", "TREs", Some([
        Organ("tre-ac", "TRE-AC"),
        Organ("tre-al", "TRE-AL"),
        Organ("tre-ap", "TRE-AP"),
        Organ("tre-am", "TRE-AM"),
        Organ("tre-ba", "TRE-BA"),
        Organ("tre-ce", "TRE-CE"),
        Organ("tre-df", "TRE-DF"),
        Organ("tre-es", "TRE-ES"),
        Organ("tre-go", "TRE-GO"),
        Organ("tre-ma", "TRE-MA"),
        Organ("tre-mt", "TRE-MT"),
        Organ("tre-ms", "TRE-MS"),
        Organ("tre-mg", "TRE-MG"),
        Organ("tre-pa", "TRE-PA"),
        Organ("tre-pb", "TRE-PB"),
        Organ("tre-pr", "TRE-PR"),
        Organ("tre-pe", "TRE-PE"),
        Organ("tre-pi", "TRE-PI"),
        Organ("tre-rj", "TRE-RJ"),
        Organ("tre-rn", "TRE-RN"),
        Organ("tre-rs", "TRE-RS"),
        Organ("tre-ro", "TRE-RO"),
        Organ("tre-rr", "TRE-RR"),
        Organ("tre-sc", "TRE-SC"),
        Organ("tre-sp", "TRE-SP"),
        Organ("tre-se", "TRE-SE"),
        Organ("tre-to", "TRE-TO")
      ])),
      TribunalData("stm", "STM", "STM", None),
      TribunalData("tjms", "TJMs", "TJMs", Some([
        Organ("tjm-mg", "TJM-MG"),
        Organ("tjm-rs", "TJM-RS"),
        Organ("tjm-sp", "TJM-SP")
      ])),
      TribunalData("tcu", "TCU", "TCU", None),
      TribunalData("tces", "TCEs", "TCEs", Some([
        Organ("tce-ac", "TCE-AC"),
        Organ("tce-al", "TCE-AL"),
        Organ("tce-ap", "TCE-AP"),
        Organ("tce-am", "TCE-AM"),
        Organ("tce-ba", "TCE-BA"),
        Organ("tce-ce", "TCE-CE"),
        Organ("tce-df", "TCE-DF"),
        Organ("tce-es", "TCE-ES"),
        Organ("tce-go", "TCE-GO"),
        Organ("tce-ma", "TCE-MA"),
        Organ("tce-mt", "TCE-MT"),
        Organ("tce-ms", "TCE-MS"),
        Organ("tce-mg", "TCE-MG"),
        Organ("tce-pa", "TCE-PA"),
        Organ("tce-pb", "TCE-PB"),
        Organ("tce-pr", "TCE-PR"),
        Organ("tce-pe", "TCE-PE"),
        Organ("tce-pi", "TCE-PI"),
        Organ("tce-rj", "TCE-RJ"),
        Organ("tce-rn", "TCE-RN"),
        Organ("tce-rs", "TCE-RS"),
        Organ("tce-ro", "TCE-RO"),
        Organ("tce-rr", "TCE-RR"),
        Organ("tce-sc", "TCE-SC"),
        Organ("tce-sp", "TCE-SP"),
        Organ("tce-se", "TCE-SE"),
        Organ("tce-to", "TCE-TO"),
        Organ("tat-ms", "TAT-MS"),
        Organ("tat-sc", "TAT-SC"),
        Organ("tit-sp", "TIT-SP"),
        Organ("cat-go", "CAT-GO")
      ])),
      TribunalData("tnu", "TNU", "TNU", None),
      TribunalData("tru", "TRU", "TRU", None),
      TribunalData("cnj", "CNJ", "CNJ", None),
      TribunalData("carf", "CARF", "CARF", None),
      TribunalData("anac", "ANAC", "ANAC", None),
      TribunalData("ancine", "ANCINE", "ANCINE", None),
      TribunalData("aneel", "ANEEL", "ANEEL", None),
      TribunalData("antaq", "ANTAQ", "ANTAQ", None),
      TribunalData("antt", "ANTT", "ANTT", None),
      TribunalData("cade", "CADE", "CADE", None),
      TribunalData("cfm", "CFM", "CFM", None)
    ]

  /** `ids.every(id => selected.includes(id))`. */
  predicate AllSelected(ids: seq<string>, selected: seq<string>)
  {
    forall i :: 0 <= i < |ids| ==> ids[i] in selected
  }

  /** `ids.filter(id => selected.includes(id)).length`. */
  function SelectedCount(ids: seq<string>, selected: seq<string>): (count: nat)
    ensures count <= |ids|
  {
    if ids == [] then 0
    else (if ids[0] in selected then 1 else 0) + SelectedCount(ids[1..], selected)
  }

  /** Some but not all of the ids are selected (the indeterminate
      checkbox). */
  predicate PartiallySelected(ids: seq<string>, selected: seq<string>)
  {
    var count := SelectedCount(ids, selected);
    count > 0 && count < |ids|
  }

  /** A list selects all of its own ids. */
  lemma SelectsItself(ids: seq<string>)
    ensures AllSelected(ids, ids)
  {
  }

  /** The count reaches the number of ids exactly when every id is selected,
      and is positive exactly when some id is. */
  lemma {:induction false} SelectedCountBounds(ids: seq<string>, selected: seq<string>)
    ensures SelectedCount(ids, selected) == |ids| <==> AllSelected(ids, selected)
    ensures SelectedCount(ids, selected) > 0 <==> exists i :: 0 <= i < |ids| && ids[i] in selected
  {
    if ids != [] {
      SelectedCountBounds(ids[1..], selected);
      assert forall i :: 1 <= i < |ids| ==> ids[i] == ids[1..][i - 1];
      if exists i :: 0 <= i < |ids| && ids[i] in selected {
        var i :| 0 <= i < |ids| && ids[i] in selected;
        if i > 0 {
          assert ids[1..][i - 1] in selected;
        }
      }
    }
  }

  /** A partially selected tribunal is one with some but not all ids
      selected; so it is never fully selected, and a tribunal with no organs
      is never partially selected. */
  lemma PartiallySelectedMeaning(ids: seq<string>, selected: seq<string>)
    ensures PartiallySelected(ids, selected) <==>
      (exists i :: 0 <= i < |ids| && ids[i] in selected) && !AllSelected(ids, selected)
    ensures PartiallySelected(ids, selected) ==> |ids| >= 2
  {
    SelectedCountBounds(ids, selected);
  }

  /** Selecting every id of the catalogue selects every tribunal. */
  lemma {:induction false} AllSelectedSelectsEachTribunal(table: seq<TribunalData>, selected: seq<string>, k: nat)
    requires AllSelected(AllIds(table), selected)
    requires k < |table|
    ensures AllSelected(TribunalIds(table[k]), selected)
  {
    AllIdsSplit(table, k);
    var before := |AllIds(table[..k])|;
    forall i | 0 <= i < |TribunalIds(table[k])|
      ensures TribunalIds(table[k])[i] in selected
    {
      assert AllIds(table)[before + i] == TribunalIds(table[k])[i];
    }
  }

  /** A complete selection selects every tribunal of the catalogue. */
  lemma AllSelectedSelectsEveryTribunal(table: seq<TribunalData>, selected: seq<string>)
    ensures AllSelected(AllIds(table), selected) ==>
      forall k :: 0 <= k < |table| ==> AllSelected(TribunalIds(table[k]), selected)
  {
    if AllSelected(AllIds(table), selected) {
      forall k | 0 <= k < |table|
        ensures AllSelected(TribunalIds(table[k]), selected)
      {
        AllSelectedSelectsEachTribunal(table, selected, k);
      }
    }
  }

  /** One more tribunal of the catalogue adds its ids at the end. */
  lemma AllIdsSnoc(table: seq<TribunalData>, i: nat)
    requires i < |table|
    ensures AllIds(table[..i + 1]) == AllIds(table[..i]) + TribunalIds(table[i])
  {
    assert table[..i + 1] == table[..i] + [table[i]];
    AllIdsAppend(table[..i], [table[i]]);
    assert AllIds([table[i]]) == TribunalIds(table[i]) by {
      assert [table[i]][1..] == [];
    }
  }

  /** The inner walk of `getAllIds`: pushes each organ's id, in order. */
  method PushOrganIds(allIds: seq<string>, organs: seq<Organ>) returns (pushed: seq<string>)
    ensures pushed == allIds + Keys(organs, OrganId)
  {
    pushed := allIds;
    var j := 0;
    while j < |organs|
      invariant 0 <= j <= |organs|
      invariant pushed == allIds + Keys(organs[..j], OrganId)
    {
      KeysAppendOne(organs[..j], organs[j], OrganId);
      assert organs[..j + 1] == organs[..j] + [organs[j]];
      pushed := pushed + [organs[j].id];
      j := j + 1;
    }
    assert organs[..j] == organs;
  }

  /** `getAllIds`: walks the catalogue (the dialog passes
    `TribunalsData`), pushing each tribunal's id and then its organs' ids. */
  method GetAllIds(table: seq<TribunalData>) returns (allIds: seq<string>)
    ensures allIds == AllIds(table)
  {
    allIds := [];
    var i := 0;
    while i < |table|
      invariant 0 <= i <= |table|
      invariant allIds == AllIds(table[..i])
    {
      var tribunal := table[i];
      ghost var before := allIds;
      allIds := allIds + [tribunal.id];
      if tribunal.organs.Some? {
        allIds := PushOrganIds(allIds, tribunal.organs.value);
        assert allIds == before + ([tribunal.id] + Keys(tribunal.organs.value, OrganId));
      }
      assert allIds == before + TribunalIds(tribunal);
      AllIdsSnoc(table, i);
      i := i + 1;
    }
    assert table[..i] == table;
  }

  /** The dialog's state. `selectedTribunals` is the selection it was
      opened with; `catalogue` is the catalogue it lists, always
      `TribunalsData`. */
  class FilterModal {
    const catalogue: seq<TribunalData>
    const selectedTribunals: seq<string>
    var localSelected: seq<string>
    var expandedTribunals: seq<string>

    constructor (selectedTribunals: seq<string>)
      ensures catalogue == TribunalsData && catalogue != []
      ensures this.selectedTribunals == selectedTribunals
      ensures localSelected == selectedTribunals
      ensures expandedTribunals == ["stf", "stj"]
    {
      catalogue := TribunalsData;
      this.selectedTribunals := selectedTribunals;
      localSelected := selectedTribunals;
      expandedTribunals := ["stf", "stj"];
    }

    /** `isAllSelected`: every id of the catalogue is selected, that is,
        the selected ones among them are as many as they are; then every
        tribunal's checkbox is checked too. */
    predicate IsAllSelected()
      reads this
      ensures IsAllSelected() <==> SelectedCount(AllIds(catalogue), localSelected) == |AllIds(catalogue)|
      ensures IsAllSelected() ==> forall k :: 0 <= k < |catalogue| ==> IsTribunalSelected(catalogue[k])
    {
      SelectedCountBounds(AllIds(catalogue), localSelected);
      AllSelectedSelectsEveryTribunal(catalogue, localSelected);
      AllSelected(AllIds(catalogue), localSelected)
    }

    /** `isTribunalSelected`: the tribunal's own id and every one of its
        organs' ids are selected. */
    predicate IsTribunalSelected(t: TribunalData)
      reads this
      ensures IsTribunalSelected(t) <==>
        && t.id in localSelected
        && (t.organs.Some? ==> forall k :: 0 <= k < |t.organs.value| ==> t.organs.value[k].id in localSelected)
    {
      TribunalIdsCoverOrgans(t);
      AllSelected(TribunalIds(t), localSelected)
    }

    /** `isTribunalPartiallySelected`: some of the tribunal's ids are
        selected, but not all; only a tribunal with organs can be in that
        state. */
    predicate IsTribunalPartiallySelected(t: TribunalData)
      reads this
      ensures IsTribunalPartiallySelected(t) <==>
        (exists i :: 0 <= i < |TribunalIds(t)| && TribunalIds(t)[i] in localSelected) && !IsTribunalSelected(t)
      ensures IsTribunalPartiallySelected(t) ==> OrganCount(t) >= 1
    {
      PartiallySelectedMeaning(TribunalIds(t), localSelected);
      TribunalIdsCoverOrgans(t);
      PartiallySelected(TribunalIds(t), localSelected)
    }

    /** `handleSelectAll`: clears a complete selection, otherwise selects the
      whole catalogue; either way "all selected" flips. */
    method HandleSelectAll()
      modifies this
      ensures old(IsAllSelected()) ==> localSelected == []
      ensures !old(IsAllSelected()) ==> localSelected == AllIds(catalogue)
      ensures catalogue != [] ==> IsAllSelected() == !old(IsAllSelected())
      ensures expandedTribunals == old(expandedTribunals)
    {
      if IsAllSelected() {
        localSelected := [];
        if catalogue != [] {
          AllIdsStart(catalogue);
        }
      } else {
        localSelected := GetAllIds(catalogue);
        SelectsItself(localSelected);
      }
    }

    /** `toggleTribunal`: expands a collapsed tribunal (appending it) or
      collapses an expanded one (removing every occurrence). */
    method ToggleTribunal(tribunalId: string)
      modifies this
      ensures expandedTribunals ==
        if tribunalId in old(expandedTribunals) then Without(old(expandedTribunals), [tribunalId])
        else old(expandedTribunals) + [tribunalId]
      ensures tribunalId in old(expandedTribunals) ==> IsSubsequence(expandedTribunals, old(expandedTribunals))
      ensures tribunalId in expandedTribunals <==> tribunalId !in old(expandedTribunals)
      ensures forall other :: other != tribunalId ==> (other in expandedTribunals <==> other in old(expandedTribunals))
      ensures localSelected == old(localSelected)
    {
      if tribunalId in expandedTribunals {
        WithoutSubsequence(expandedTribunals, [tribunalId]);
        expandedTribunals := Without(expandedTribunals, [tribunalId]);
      } else {
        expandedTribunals := expandedTribunals + [tribunalId];
      }
    }

    /** `handleTribunalSelection`: checking adds the tribunal's ids and drops
      repeated entries, keeping first occurrences in order; unchecking
      removes every occurrence of them. */
    method HandleTribunalSelection(t: TribunalData, checked: bool)
      modifies this
      ensures checked ==> localSelected == SetOrder(old(localSelected) + TribunalIds(t))
      ensures !checked ==> localSelected == Without(old(localSelected), TribunalIds(t))
      ensures checked ==> IsTribunalSelected(t)
      ensures checked ==> forall id :: id in localSelected <==> id in old(localSelected) || id in TribunalIds(t)
      ensures checked ==> forall i, j :: 0 <= i < j < |localSelected| ==> localSelected[i] != localSelected[j]
      ensures checked ==> FirstOccurrenceOrder(old(localSelected) + TribunalIds(t), localSelected)
      ensures !checked ==> IsSubsequence(localSelected, old(localSelected))
      ensures !checked ==> !IsTribunalSelected(t) && !IsTribunalPartiallySelected(t)
      ensures forall id :: id !in TribunalIds(t) ==> (id in localSelected <==> id in old(localSelected))
      ensures expandedTribunals == old(expandedTribunals)
    {
      var idsToToggle := TribunalIds(t);
      if checked {
        localSelected := SetOrder(localSelected + idsToToggle);
        SetOrderSpec(old(localSelected) + idsToToggle);
      } else {
        WithoutSubsequence(localSelected, idsToToggle);
        localSelected := Without(localSelected, idsToToggle);
        PartiallySelectedMeaning(idsToToggle, localSelected);
      }
    }

    /** `handleOrganSelection`: checking appends the organ id, unchecking
      removes every occurrence of it. */
    method HandleOrganSelection(organId: string, checked: bool)
      modifies this
      ensures checked ==> localSelected == old(localSelected) + [organId]
      ensures !checked ==> localSelected == Without(old(localSelected), [organId])
      ensures !checked ==> IsSubsequence(localSelected, old(localSelected))
      ensures organId in localSelected <==> checked
      ensures forall id :: id != organId ==> (id in localSelected <==> id in old(localSelected))
      ensures expandedTribunals == old(expandedTribunals)
    {
      if checked {
        localSelected := localSelected + [organId];
      } else {
        WithoutSubsequence(localSelected, [organId]);
        localSelected := Without(localSelected, [organId]);
      }
    }

    /** `handleApply`: hands the working selection to the caller. */
    method HandleApply() returns (applied: seq<string>)
      ensures applied == localSelected
    {
      applied := localSelected;
    }

    /** `handleCancel`: discards the working selection. */
    method HandleCancel()
      modifies this
      ensures localSelected == selectedTribunals
      ensures expandedTribunals == old(expandedTribunals)
    {
      localSelected := selectedTribunals;
    }
  }
}
