/** `EditExcelBuilder.Build`: the edit workbook made from the origin workbook. After two fatal
    checks (the origin file exists, the template worksheet exists) one clone of the template is
    added per sheet with a display name, the worksheets named in the sheet index are moved to
    the front in index order, the first worksheet is tab-selected, and every clone is filled
    with its sheet's records. */
module EditExcelBuilder {
  import opened Common
  import opened Data
  import opened Excel
  import SheetOrder
  import opened SheetWriter

  // ----- specification -----

  /** `FirstOrDefault(x => x.Name.ToLower() == TemplateSheetName)`: the index of the template. */
  function FindTemplate(sheets: seq<Worksheet>, templateSheetName: NString): (r: Option<nat>)
    ensures r.Some? ==> r.value < |sheets| && Some(ToLower(sheets[r.value].name)) == templateSheetName
    ensures r.Some? ==> forall j :: 0 <= j < r.value ==> Some(ToLower(sheets[j].name)) != templateSheetName
    ensures r.None? ==> forall j :: 0 <= j < |sheets| ==> Some(ToLower(sheets[j].name)) != templateSheetName
  {
    if sheets == [] then None
    else if Some(ToLower(sheets[0].name)) == templateSheetName then Some(0)
    else match FindTemplate(sheets[1..], templateSheetName)
      case None => None
      case Some(k) => Some(k + 1)
  }

  /** The names of the clones the sheets ask for: their non-empty display names, in order. */
  function DisplayNames(data: seq<EditSheet>): seq<string>
    decreases |data|
  {
    if data == [] then []
    else if IsNullOrEmpty(data[0].displayName) then DisplayNames(data[1..])
    else [data[0].displayName.value] + DisplayNames(data[1..])
  }

  /** The sheet-creation loop over worksheets called `names`: the names of the clones it adds,
      or the exception for the first display name some worksheet already has. */
  function Clones(names: seq<string>, data: seq<EditSheet>): Result<seq<string>>
    decreases |data|
  {
    if data == [] then Ok([])
    else if IsNullOrEmpty(data[0].displayName) then Clones(names, data[1..])
    else if data[0].displayName.value in names then Err(WorksheetExists(data[0].displayName.value))
    else match Clones(names + [data[0].displayName.value], data[1..])
      case Err(e) => Err(e)
      case Ok(rest) => Ok([data[0].displayName.value] + rest)
  }

  /** `names` followed by the clone names of an `Ok` result; an error as it is. */
  function After(names: seq<string>, r: Result<seq<string>>): Result<seq<string>> {
    match r
    case Err(e) => Err(e)
    case Ok(rest) => Ok(names + rest)
  }

  /** The index of the first sheet displayed as `name`, `|data|` when there is none. */
  function Owner(data: seq<EditSheet>, name: string): (k: nat)
    ensures k <= |data|
    ensures k < |data| ==> data[k].displayName == Some(name)
    ensures forall j :: 0 <= j < k ==> data[j].displayName != Some(name)
    decreases |data|
  {
    if data == [] then 0
    else if data[0].displayName == Some(name) then 0
    else 1 + Owner(data[1..], name)
  }

  /** The state of a clone of `template` once the write loop has filled it with `sheet`:
      a sheet without records leaves it as it was. */
  function Filled(template: SheetState, sheet: EditSheet, fit: Fitter, apply: CellSetter): SheetState {
    if sheet.records.Some? && SheetWritten(template, sheet, fit, apply).Ok?
    then SheetWritten(template, sheet, fit, apply).value
    else template
  }

  /** Whether writing `sheet` into its clone throws. */
  predicate Fails(template: SheetState, sheet: EditSheet, fit: Fitter, apply: CellSetter) {
    !IsNullOrEmpty(sheet.displayName) && sheet.records.Some? && SheetWritten(template, sheet, fit, apply).Err?
  }

  /** The exception of the first sheet the write loop fails on. */
  function WriteError(template: SheetState, data: seq<EditSheet>, fit: Fitter, apply: CellSetter): Option<Exception>
    decreases |data|
  {
    if data == [] then None
    else if Fails(template, data[0], fit, apply) then Some(SheetWritten(template, data[0], fit, apply).error)
    else WriteError(template, data[1..], fit, apply)
  }

  // ----- properties -----

  lemma DistinctParts(a: seq<string>, b: seq<string>)
    requires Distinct(a + b)
    ensures Distinct(a) && Distinct(b)
  {
    forall i, j | 0 <= i < j < |b| ensures b[i] != b[j] {
      assert b[i] == (a + b)[|a| + i] && b[j] == (a + b)[|a| + j];
    }
    forall i, j | 0 <= i < j < |a| ensures a[i] != a[j] {
      assert a[i] == (a + b)[i] && a[j] == (a + b)[j];
    }
  }

  lemma {:induction false} DisplayNamesMember(data: seq<EditSheet>, n: string)
    ensures n in DisplayNames(data) <==> n != "" && exists k :: 0 <= k < |data| && data[k].displayName == Some(n)
    decreases |data|
  {
    if data != [] {
      DisplayNamesMember(data[1..], n);
      if n != "" && data[0].displayName != Some(n) {
        if exists k :: 0 <= k < |data| && data[k].displayName == Some(n) {
          var k :| 0 <= k < |data| && data[k].displayName == Some(n);
          assert data[1..][k - 1] == data[k];
        }
      }
      if exists k :: 0 <= k < |data[1..]| && data[1..][k].displayName == Some(n) {
        var k :| 0 <= k < |data[1..]| && data[1..][k].displayName == Some(n);
        assert data[k + 1] == data[1..][k];
      }
    }
  }

  /** Sheet creation succeeds exactly when the existing names and the display names are all
      different, and then it adds one clone per display name, in order; otherwise it fails
      with one of the display names. */
  lemma {:induction false} ClonesShape(names: seq<string>, data: seq<EditSheet>)
    requires Distinct(names)
    ensures Clones(names, data).Ok? <==> Distinct(names + DisplayNames(data))
    ensures Clones(names, data).Ok? ==> Clones(names, data).value == DisplayNames(data)
    ensures Clones(names, data).Err? ==>
      Clones(names, data).error.WorksheetExists? && Clones(names, data).error.name in DisplayNames(data)
    decreases |data|
  {
    if data == [] {
      assert names + [] == names;
    } else if IsNullOrEmpty(data[0].displayName) {
      ClonesShape(names, data[1..]);
    } else {
      var n := data[0].displayName.value;
      var rest := DisplayNames(data[1..]);
      assert DisplayNames(data) == [n] + rest;
      assert names + DisplayNames(data) == (names + [n]) + rest;
      if n in names {
        var i :| 0 <= i < |names| && names[i] == n;
        assert (names + DisplayNames(data))[i] == (names + DisplayNames(data))[|names|];
      } else {
        assert Distinct(names + [n]);
        ClonesShape(names + [n], data[1..]);
        if !Distinct(names + [n]) {
          assert false;
        }
        if !Distinct(names + [n] + rest) {
          assert !Distinct(names + DisplayNames(data));
        }
      }
    }
  }

  lemma HeadNotInTail(data: seq<EditSheet>)
    requires Distinct(DisplayNames(data))
    requires data != [] && !IsNullOrEmpty(data[0].displayName)
    ensures data[0].displayName.value !in DisplayNames(data[1..])
  {
    var rest := DisplayNames(data[1..]);
    assert DisplayNames(data) == [data[0].displayName.value] + rest;
    forall p | 0 <= p < |rest| ensures rest[p] != data[0].displayName.value {
      assert DisplayNames(data)[p + 1] == rest[p];
      assert DisplayNames(data)[0] == data[0].displayName.value;
    }
  }

  /** When the display names are all different, sheet `k` is the one its clone is written
      from. */
  lemma {:induction false} OwnerOfDisplayName(data: seq<EditSheet>, k: nat)
    requires Distinct(DisplayNames(data))
    requires k < |data| && !IsNullOrEmpty(data[k].displayName)
    ensures Owner(data, data[k].displayName.value) == k
    decreases |data|
  {
    var n := data[k].displayName.value;
    if k > 0 {
      assert data[1..][k - 1] == data[k];
      DisplayNamesMember(data[1..], n);
      if !IsNullOrEmpty(data[0].displayName) {
        HeadNotInTail(data);
      }
      var prefix := if IsNullOrEmpty(data[0].displayName) then [] else [data[0].displayName.value];
      assert DisplayNames(data) == prefix + DisplayNames(data[1..]);
      DistinctParts(prefix, DisplayNames(data[1..]));
      OwnerOfDisplayName(data[1..], k - 1);
    }
  }

  /** Reordering keeps the worksheet names unique and non-empty, and keeps the same names (the
      order itself is `SheetOrder.ReorderShape`). */
  lemma ReorderedNames(names: seq<string>, idx: seq<string>)
    requires ValidNames(names)
    ensures ValidNames(SheetOrder.Reorder(names, idx))
    ensures multiset(SheetOrder.Reorder(names, idx)) == multiset(names)
  {
    SheetOrder.ReorderPermutation(names, idx);
    assert "" !in multiset(SheetOrder.Reorder(names, idx));
  }

  lemma AfterNothing(r: Result<seq<string>>)
    ensures After([], r) == r
  {
    if r.Ok? {
      assert [] + r.value == r.value;
    }
  }

  lemma AfterConcat(a: seq<string>, b: seq<string>, r: Result<seq<string>>)
    ensures After(a, After(b, r)) == After(a + b, r)
  {
    if r.Ok? {
      assert a + (b + r.value) == (a + b) + r.value;
    }
  }

  // ----- the builder -----

  /** The sheet-creation loop: one unprotected, unselected clone of the template per display
      name, appended in order. */
  method CreateClones(book: Workbook, template: Worksheet, data: seq<EditSheet>) returns (r: Result<seq<Worksheet>>)
    requires book.Valid()
    modifies book
    ensures book.Valid()
    ensures r.Ok? <==> Clones(NamesOf(old(book.sheets)), data).Ok?
    ensures r.Err? ==> r.error == Clones(NamesOf(old(book.sheets)), data).error
    ensures r.Ok? ==> book.sheets == old(book.sheets) + r.value
    ensures r.Ok? ==> NamesOf(r.value) == Clones(NamesOf(old(book.sheets)), data).value
    ensures r.Ok? ==> forall i :: 0 <= i < |r.value| ==> fresh(r.value[i])
    ensures r.Ok? ==> forall w :: w in r.value ==>
      fresh(w) && w.State() == template.State() && !w.isProtected && !w.tabSelected
  {
    ghost var names := NamesOf(book.sheets);
    var clones: seq<Worksheet> := [];
    var k := 0;
    assert names + NamesOf(clones) == names && data[k..] == data;
    AfterNothing(Clones(names, data));
    while k < |data|
      invariant 0 <= k <= |data|
      invariant book.Valid()
      invariant book.sheets == old(book.sheets) + clones
      invariant NamesOf(book.sheets) == names + NamesOf(clones)
      invariant Clones(names, data) == After(NamesOf(clones), Clones(names + NamesOf(clones), data[k..]))
      invariant forall i :: 0 <= i < |clones| ==> fresh(clones[i])
      invariant forall w :: w in clones ==>
        fresh(w) && w.State() == template.State() && !w.isProtected && !w.tabSelected
    {
      var sheet := data[k];
      assert data[k..][0] == sheet && data[k..][1..] == data[k + 1..];
      if IsNullOrEmpty(sheet.displayName) {
        assert Clones(names + NamesOf(clones), data[k..]) == Clones(names + NamesOf(clones), data[k + 1..]);
        k := k + 1;
        continue;
      }
      var name := sheet.displayName.value;
      if name in NamesOf(book.sheets) {
        return Err(WorksheetExists(name));
      }
      ghost var tail := Clones(names + NamesOf(clones) + [name], data[k + 1..]);
      assert Clones(names + NamesOf(clones), data[k..]) == After([name], tail);
      AfterConcat(NamesOf(clones), [name], tail);
      var clone := new Worksheet.Clone(name, template);
      clone.isProtected := false;
      clone.tabSelected := false;
      book.Add(clone);
      assert NamesOf(clones + [clone]) == NamesOf(clones) + [name];
      assert names + NamesOf(clones) + [name] == names + NamesOf(clones + [clone]);
      clones := clones + [clone];
      k := k + 1;
    }
    assert data[k..] == [];
    assert NamesOf(clones) + [] == NamesOf(clones);
    return Ok(clones);
  }

  /** The reordering loop: from the last name of the index to the first, a worksheet of that
      name is moved to the start. */
  method ReorderSheets(book: Workbook, sheetNames: seq<string>)
    requires book.Valid()
    modifies book
    ensures book.Valid()
    ensures NamesOf(book.sheets) == SheetOrder.Reorder(NamesOf(old(book.sheets)), sheetNames)
    ensures multiset(book.sheets) == multiset(old(book.sheets))
  {
    var i := |sheetNames| - 1;
    while 0 <= i
      invariant -1 <= i < |sheetNames|
      invariant book.Valid()
      invariant NamesOf(book.sheets) == SheetOrder.Reorder(NamesOf(old(book.sheets)), sheetNames[i + 1..])
      invariant multiset(book.sheets) == multiset(old(book.sheets))
    {
      var sheetName := sheetNames[i];
      assert sheetNames[i..][0] == sheetName && sheetNames[i..][1..] == sheetNames[i + 1..];
      if sheetName in NamesOf(book.sheets) {
        book.MoveToStart(sheetName);
      }
      i := i - 1;
    }
  }

  /** In the workbook the clones are part of, the worksheet found for a sheet's display name is
      that sheet's clone, and there is one exactly when the name is not empty. */
  lemma CloneFound(sheets: seq<Worksheet>, clones: seq<Worksheet>, data: seq<EditSheet>, k: nat)
    requires ValidNames(NamesOf(sheets))
    requires NamesOf(clones) == DisplayNames(data)
    requires forall w :: w in clones ==> w in sheets
    requires k < |data| && data[k].displayName.Some?
    ensures var n := data[k].displayName.value;
      && (FindSheet(sheets, n).Some? <==> n != "")
      && (n != "" ==> exists m :: 0 <= m < |clones| && clones[m].name == n && sheets[FindSheet(sheets, n).value] == clones[m])
  {
    var n := data[k].displayName.value;
    var found := FindSheet(sheets, n);
    if found.Some? {
      assert NamesOf(sheets)[found.value] == n;
    }
    if n != "" {
      DisplayNamesMember(data, n);
      assert n in NamesOf(clones);
      var m :| 0 <= m < |clones| && NamesOf(clones)[m] == n;
      assert clones[m] in sheets;
      var p :| 0 <= p < |sheets| && sheets[p] == clones[m];
      assert sheets[p].name == n;
      assert found.Some?;
      assert NamesOf(sheets)[p] == NamesOf(sheets)[found.value];
    }
  }

  /** The state the record loop has left in the clones before sheet `k`. */
  ghost predicate WrittenBefore(clones: seq<Worksheet>, data: seq<EditSheet>, k: nat, template: SheetState,
                                fit: Fitter, apply: CellSetter)
    reads clones
  {
    && k <= |data|
    && forall m :: 0 <= m < |clones| ==>
      clones[m].State() == (if Owner(data, clones[m].name) < k then Filled(template, data[Owner(data, clones[m].name)], fit, apply) else template)
  }

  /** A round that writes no clone keeps the loop's state, as long as no clone holds a sheet
      that changes it. */
  lemma SkipKeeps(clones: seq<Worksheet>, data: seq<EditSheet>, k: nat, template: SheetState,
                  fit: Fitter, apply: CellSetter)
    requires k < |data| && WrittenBefore(clones, data, k, template, fit, apply)
    requires forall m :: 0 <= m < |clones| ==>
      Owner(data, clones[m].name) != k || Filled(template, data[k], fit, apply) == template
    ensures WrittenBefore(clones, data, k + 1, template, fit, apply)
  {
  }

  /** The write of sheet `k` into its own clone `clones[m0]`. */
  method WriteFound(worksheet: Worksheet, clones: seq<Worksheet>, data: seq<EditSheet>, k: nat, ghost m0: nat,
                    ghost template: SheetState, fit: Fitter, apply: CellSetter) returns (r: Result<()>)
    requires k < |data| && data[k].records.Some? && !IsNullOrEmpty(data[k].displayName)
    requires m0 < |clones| && clones[m0] == worksheet && clones[m0].name == data[k].displayName.value
    requires Owner(data, worksheet.name) == k
    requires forall m :: 0 <= m < |clones| && m != m0 ==> clones[m].name != worksheet.name
    requires WrittenBefore(clones, data, k, template, fit, apply)
    modifies worksheet
    ensures r.Ok? <==> !Fails(template, data[k], fit, apply)
    ensures r.Err? ==> r.error == SheetWritten(template, data[k], fit, apply).error
    ensures r.Ok? ==> WrittenBefore(clones, data, k + 1, template, fit, apply)
    ensures worksheet.isProtected == old(worksheet.isProtected) && worksheet.tabSelected == old(worksheet.tabSelected)
  {
    assert worksheet.State() == template;
    r := WriteSheet(worksheet, data[k], fit, apply);
    if r.Ok? {
      forall m | 0 <= m < |clones|
        ensures clones[m].State() ==
          (if Owner(data, clones[m].name) < k + 1 then Filled(template, data[Owner(data, clones[m].name)], fit, apply) else template)
      {
        if m != m0 {
          assert clones[m] != worksheet;
        }
      }
    }
  }

  /** One round of the record loop: sheet `k` is written into its clone, if it has one and
      has records. */
  method WriteOne(book: Workbook, clones: seq<Worksheet>, data: seq<EditSheet>, k: nat, ghost template: SheetState,
                  fit: Fitter, apply: CellSetter) returns (r: Result<()>)
    requires book.Valid()
    requires NamesOf(clones) == DisplayNames(data) && Distinct(DisplayNames(data))
    requires forall w :: w in clones ==> w in book.sheets
    requires k < |data|
    requires WrittenBefore(clones, data, k, template, fit, apply)
    modifies clones
    ensures r.Ok? <==> !Fails(template, data[k], fit, apply)
    ensures r.Err? ==> r.error == SheetWritten(template, data[k], fit, apply).error
    ensures r.Ok? ==> WrittenBefore(clones, data, k + 1, template, fit, apply)
    ensures forall w :: w in clones ==> w.isProtected == old(w.isProtected) && w.tabSelected == old(w.tabSelected)
  {
    forall m | 0 <= m < |clones| ensures clones[m].name != "" {
      assert NamesOf(clones)[m] == clones[m].name;
      DisplayNamesMember(data, clones[m].name);
    }
    var sheet := data[k];
    if sheet.displayName.None? {
      SkipKeeps(clones, data, k, template, fit, apply);
      return Ok(());
    }
    CloneFound(book.sheets, clones, data, k);
    var found := FindSheet(book.sheets, sheet.displayName.value);
    if found.None? || sheet.records.None? {
      SkipKeeps(clones, data, k, template, fit, apply);
      return Ok(());
    }
    var worksheet := book.sheets[found.value];
    ghost var name := sheet.displayName.value;
    ghost var m0 :| 0 <= m0 < |clones| && clones[m0].name == name && worksheet == clones[m0];
    OwnerOfDisplayName(data, k);
    forall m | 0 <= m < |clones| && m != m0 ensures clones[m].name != name {
      assert NamesOf(clones)[m] != NamesOf(clones)[m0];
    }
    r := WriteFound(worksheet, clones, data, k, m0, template, fit, apply);
  }

  /** The record loop: each sheet is written into the clone of its display name; a sheet
      without a worksheet or without records is skipped. */
  method WriteSheets(book: Workbook, clones: seq<Worksheet>, data: seq<EditSheet>, ghost template: SheetState,
                     fit: Fitter, apply: CellSetter) returns (r: Result<()>)
    requires book.Valid()
    requires NamesOf(clones) == DisplayNames(data) && Distinct(DisplayNames(data))
    requires forall w :: w in clones ==> w in book.sheets && w.State() == template
    modifies clones
    ensures r.Ok? <==> WriteError(template, data, fit, apply).None?
    ensures r.Err? ==> r.error == WriteError(template, data, fit, apply).value
    ensures r.Ok? ==> forall w :: w in clones ==>
      Owner(data, w.name) < |data| && w.State() == Filled(template, data[Owner(data, w.name)], fit, apply)
    ensures forall w :: w in clones ==> w.isProtected == old(w.isProtected) && w.tabSelected == old(w.tabSelected)
  {
    var k := 0;
    assert data[k..] == data;
    while k < |data|
      invariant 0 <= k <= |data|
      invariant WriteError(template, data, fit, apply) == WriteError(template, data[k..], fit, apply)
      invariant WrittenBefore(clones, data, k, template, fit, apply)
      invariant forall w :: w in clones ==> w.isProtected == old(w.isProtected) && w.tabSelected == old(w.tabSelected)
    {
      assert data[k..][0] == data[k] && data[k..][1..] == data[k + 1..];
      var written := WriteOne(book, clones, data, k, template, fit, apply);
      if written.Err? {
        return Err(written.error);
      }
      k := k + 1;
    }
    assert data[k..] == [];
    forall w | w in clones
      ensures Owner(data, w.name) < |data| && w.State() == Filled(template, data[Owner(data, w.name)], fit, apply)
    {
      var m :| 0 <= m < |clones| && clones[m] == w;
      assert NamesOf(clones)[m] == w.name;
      DisplayNamesMember(data, w.name);
    }
    return Ok(());
  }

  /** Sheet creation, reordering and the selection of the first tab. */
  method Prepare(book: Workbook, template: Worksheet, indexData: Option<IndexData>, data: seq<EditSheet>)
      returns (r: Result<seq<Worksheet>>)
    requires book.Valid() && template in book.sheets
    modifies book, book.sheets
    ensures book.Valid()
    ensures r.Ok? <==> Clones(NamesOf(old(book.sheets)), data).Ok?
    ensures r.Err? ==> r.error == Clones(NamesOf(old(book.sheets)), data).error
    ensures r.Ok? ==>
      var names := NamesOf(old(book.sheets)) + DisplayNames(data);
      && NamesOf(r.value) == DisplayNames(data) && Distinct(DisplayNames(data))
      && NamesOf(book.sheets) == (if indexData.Some? then SheetOrder.Reorder(names, indexData.value.sheetNames) else names)
      && |book.sheets| > 0 && book.sheets[0].tabSelected
      && (forall w :: w in book.sheets ==> w in old(book.sheets) || w in r.value)
    ensures r.Ok? ==> forall i :: 0 <= i < |r.value| ==> fresh(r.value[i])
    ensures r.Ok? ==> forall w :: w in r.value ==>
      && w in book.sheets && w.State() == old(template.State())
      && !w.isProtected && (w != book.sheets[0] ==> !w.tabSelected)
    ensures r.Ok? ==> forall w :: w in old(book.sheets) ==>
      && w in book.sheets && w.State() == old(w.State()) && w.isProtected == old(w.isProtected)
      && (w != book.sheets[0] ==> w.tabSelected == old(w.tabSelected))
  {
    ghost var names := NamesOf(book.sheets);
    var created := CreateClones(book, template, data);
    if created.Err? {
      return Err(created.error);
    }
    var clones := created.value;
    ClonesShape(names, data);
    DistinctParts(names, DisplayNames(data));
    ghost var all := book.sheets;
    assert NamesOf(all) == names + DisplayNames(data);
    if |book.sheets| > 0 && indexData.Some? {
      ReorderSheets(book, indexData.value.sheetNames);
    }
    assert multiset(book.sheets) == multiset(all);
    forall w ensures w in book.sheets <==> w in all {
      assert w in book.sheets <==> w in multiset(book.sheets);
      assert w in all <==> w in multiset(all);
    }
    assert |book.sheets| == |all| > 0;
    var first := book.sheets[0];
    assert first in all;
    assert first in old(book.sheets) || first in clones;
    first.tabSelected := true;
    return Ok(clones);
  }

  /** `Build`: `Ok(true)` when the edit workbook was filled (and saved), `Ok(false)` when there
      were no sheets to write; the origin file's existence is a parameter. */
  method Build(originExists: bool, book: Workbook, indexData: Option<IndexData>, sheetData: Option<seq<EditSheet>>,
               templateSheetName: NString, fit: Fitter, apply: CellSetter) returns (r: Result<bool>)
    requires book.Valid()
    modifies book, book.sheets
    ensures book.Valid()
    ensures !originExists ==> r == Err(FileNotFound) && unchanged(book) && unchanged(book.sheets)
    ensures originExists && sheetData.None? ==> r == Ok(false) && unchanged(book) && unchanged(book.sheets)
    ensures originExists && sheetData.Some? && FindTemplate(old(book.sheets), templateSheetName).None? ==>
      r == Err(TemplateSheetNotFound) && unchanged(book) && unchanged(book.sheets)
    ensures originExists && sheetData.Some? && FindTemplate(old(book.sheets), templateSheetName).Some? ==>
      var names := NamesOf(old(book.sheets));
      var template := old(book.sheets[FindTemplate(book.sheets, templateSheetName).value].State());
      var data := sheetData.value;
      && (r.Ok? <==> Clones(names, data).Ok? && WriteError(template, data, fit, apply).None?)
      && (r.Err? ==> r.error == if Clones(names, data).Err? then Clones(names, data).error
                                else WriteError(template, data, fit, apply).value)
      && (r.Ok? ==>
        && r.value
        && |book.sheets| > 0
        && NamesOf(book.sheets) == (if indexData.Some? then SheetOrder.Reorder(names + DisplayNames(data), indexData.value.sheetNames)
                                  else names + DisplayNames(data))
        && book.sheets[0].tabSelected
        && (forall w :: w in old(book.sheets) ==>
             && w in book.sheets && w.State() == old(w.State()) && w.isProtected == old(w.isProtected)
             && (w != book.sheets[0] ==> w.tabSelected == old(w.tabSelected)))
        && (forall w :: w in book.sheets && w !in old(book.sheets) ==>
             && fresh(w) && !w.isProtected && (w != book.sheets[0] ==> !w.tabSelected)
             && Owner(data, w.name) < |data| && w.State() == Filled(template, data[Owner(data, w.name)], fit, apply)))
  {
    if !originExists {
      return Err(FileNotFound);
    }
    if sheetData.None? {
      return Ok(false);
    }
    var data := sheetData.value;
    ghost var names := NamesOf(book.sheets);
    var t := FindTemplate(book.sheets, templateSheetName);
    if t.None? {
      return Err(TemplateSheetNotFound);
    }
    var template := book.sheets[t.value];
    ghost var state := template.State();
    var prepared := Prepare(book, template, indexData, data);
    if prepared.Err? {
      return Err(prepared.error);
    }
    var clones := prepared.value;
    var written := WriteSheets(book, clones, data, state, fit, apply);
    if written.Err? {
      return Err(written.error);
    }
    return Ok(true);
  }
}
