/**
 * Expense types and expenses (src/components/Despesas/Despesas.tsx). Type
 * names are unique ignoring case and surrounding blanks; every expense keeps
 * a copy of its type's name (`nomeTipo`), which renaming a type rewrites and
 * removing a type leaves behind.
 */
module Despesas {
  import opened Wrappers
  import opened Text
  import opened Lists
  import opened Types

  /** The two collections the expense screen writes. */
  datatype Book = Book(tipos: seq<ExpenseType>, despesas: seq<Expense>)

  /** Some existing type has the same name, ignoring case and surrounding blanks. */
  predicate TypeNameTaken(ts: seq<ExpenseType>, nome: string) {
    exists i :: 0 <= i < |ts| && NameKey(ts[i].nome) == NameKey(nome)
  }

  /**
   * `adicionarTipo`: refuses a blank name or a name already in use; otherwise
   * appends a type carrying the trimmed name.
   */
  function AddType(ts: seq<ExpenseType>, nome: string, id: Id, agora: Timestamp): (r: Outcome<seq<ExpenseType>>)
    ensures r.Err? <==> Trim(nome) == [] || TypeNameTaken(ts, nome)
    ensures Trim(nome) == [] ==> r == Err(BlankName)
    ensures r.Ok? ==> |r.value| == |ts| + 1 && r.value[..|ts|] == ts
                      && r.value[|ts|] == ExpenseType(id, Trim(nome), agora)
  {
    if Trim(nome) == [] then Err(BlankName)
    else if TypeNameTaken(ts, nome) then Err(DuplicateName)
    else Ok(ts + [ExpenseType(id, Trim(nome), agora)])
  }

  /** Another type (a different id) already uses the new name. */
  predicate TypeNameTakenByOther(ts: seq<ExpenseType>, id: Id, nome: string) {
    exists i :: 0 <= i < |ts| && ts[i].id != id && NameKey(ts[i].nome) == Lower(Trim(nome))
  }

  /**
   * `atualizarTipo`: refuses a blank name or a name used by a type with a
   * different id; otherwise renames the types with that id and rewrites
   * `nomeTipo` on the expenses whose `tipoId` is that id. The id is not
   * looked up first: for an unknown id only orphaned expenses change.
   */
  function RenameType(b: Book, id: Id, novo: string): (r: Outcome<Book>)
    ensures r.Err? <==> Trim(novo) == [] || TypeNameTakenByOther(b.tipos, id, novo)
    ensures Trim(novo) == [] ==> r == Err(BlankName)
    ensures r.Ok? ==>
      && |r.value.tipos| == |b.tipos|
      && (forall i :: 0 <= i < |b.tipos| ==>
            r.value.tipos[i] == if b.tipos[i].id == id then b.tipos[i].(nome := Trim(novo)) else b.tipos[i])
      && |r.value.despesas| == |b.despesas|
      && (forall j :: 0 <= j < |b.despesas| ==>
            r.value.despesas[j] == if b.despesas[j].tipoId == id
                                   then b.despesas[j].(nomeTipo := Trim(novo))
                                   else b.despesas[j])
  {
    var nomeProcessado := Trim(novo);
    if nomeProcessado == [] then Err(BlankName)
    else if TypeNameTakenByOther(b.tipos, id, novo) then Err(DuplicateName)
    else
      Ok(Book(
        seq(|b.tipos|, i requires 0 <= i < |b.tipos| =>
          if b.tipos[i].id == id then b.tipos[i].(nome := nomeProcessado) else b.tipos[i]),
        seq(|b.despesas|, j requires 0 <= j < |b.despesas| =>
          if b.despesas[j].tipoId == id then b.despesas[j].(nomeTipo := nomeProcessado) else b.despesas[j])))
  }

  /** `removerTipo`: keeps exactly the types with a different id; the expenses are not touched. */
  function RemoveType(b: Book, id: Id): (r: Book)
    ensures SubseqOf(r.tipos, b.tipos)
    ensures forall t {:trigger multiset(r.tipos)[t]} ::
              multiset(r.tipos)[t] == if t.id != id then multiset(b.tipos)[t] else 0
    ensures forall t :: t in r.tipos <==> t in b.tipos && t.id != id
    ensures (forall i :: 0 <= i < |b.tipos| ==> b.tipos[i].id != id) ==> r.tipos == b.tipos
    ensures r.despesas == b.despesas
  {
    b.(tipos := Filter(b.tipos, (t: ExpenseType) => t.id != id))
  }

  /** `removerDespesa`: keeps exactly the expenses with a different id, in order. */
  function RemoveExpense(ds: seq<Expense>, id: Id): (r: seq<Expense>)
    ensures SubseqOf(r, ds)
    ensures forall d {:trigger multiset(r)[d]} :: multiset(r)[d] == if d.id != id then multiset(ds)[d] else 0
    ensures forall d :: d in r <==> d in ds && d.id != id
    ensures (forall j :: 0 <= j < |ds| ==> ds[j].id != id) ==> r == ds
  {
    Filter(ds, (d: Expense) => d.id != id)
  }

  /** The amount field: filled in, a number, and above zero. */
  predicate GoodAmount(valor: FormNumber<real>) {
    valor.Typed? && valor.parsed.Some? && valor.parsed.value > 0.0
  }

  /**
   * `adicionarDespesa`: refuses an empty type or amount, an amount that is NaN
   * or not positive, or an unknown type; otherwise appends an expense that
   * copies the type's current name and has an empty description.
   */
  function AddExpense(b: Book, tipoId: Id, valor: FormNumber<real>, id: Id, agora: Timestamp): (r: Outcome<seq<Expense>>)
    ensures r.Err? <==> tipoId == [] || !GoodAmount(valor) || FindType(b.tipos, tipoId).None?
    ensures tipoId == [] || valor.Blank? ==> r == Err(MissingFields)
    ensures r.Ok? ==>
      && |r.value| == |b.despesas| + 1 && r.value[..|b.despesas|] == b.despesas
      && var d := r.value[|b.despesas|];
      && d.id == id && d.tipoId == tipoId && d.valor == valor.parsed.value && d.descricao == []
      && d.data == agora
      && d.nomeTipo == FindType(b.tipos, tipoId).value.nome
  {
    if tipoId == [] || valor.Blank? then Err(MissingFields)
    else if valor.parsed.None? || valor.parsed.value <= 0.0 then Err(InvalidAmount)
    else match FindType(b.tipos, tipoId)
      case None => Err(TypeNotFound)
      case Some(t) => Ok(b.despesas + [Expense(id, tipoId, t.nome, "", valor.parsed.value, agora)])
  }

  /** Removing an expense just added under a fresh id gives back the expenses as they were. */
  lemma RemoveExpenseUndoesAdd(b: Book, tipoId: Id, valor: FormNumber<real>, id: Id, agora: Timestamp)
    requires forall j :: 0 <= j < |b.despesas| ==> b.despesas[j].id != id
    requires AddExpense(b, tipoId, valor, id, agora).Ok?
    ensures RemoveExpense(AddExpense(b, tipoId, valor, id, agora).value, id) == b.despesas
  {
    var ds := AddExpense(b, tipoId, valor, id, agora).value;
    var d := ds[|b.despesas|];
    assert ds == b.despesas + [d];
    var keep := (e: Expense) => e.id != id;
    FilterConcat(b.despesas, [d], keep);
    assert Filter([d], keep) == [];
  }

  /** No two types share a name, ignoring case and surrounding blanks. */
  predicate DistinctTypeNames(ts: seq<ExpenseType>) {
    forall i, j :: 0 <= i < j < |ts| ==> NameKey(ts[i].nome) != NameKey(ts[j].nome)
  }

  predicate UniqueTypeIds(ts: seq<ExpenseType>) {
    forall i, j :: 0 <= i < j < |ts| ==> ts[i].id != ts[j].id
  }

  /** Every expense's copied name is the name of each type its `tipoId` points at. */
  predicate NamesInSync(b: Book) {
    forall j, i :: 0 <= j < |b.despesas| && 0 <= i < |b.tipos| && b.tipos[i].id == b.despesas[j].tipoId
                   ==> b.despesas[j].nomeTipo == b.tipos[i].nome
  }

  /** Adding a type keeps the type names distinct. */
  lemma AddTypeKeepsNamesDistinct(ts: seq<ExpenseType>, nome: string, id: Id, agora: Timestamp)
    requires DistinctTypeNames(ts)
    ensures var r := AddType(ts, nome, id, agora);
            r.Ok? ==> DistinctTypeNames(r.value)
  {
    var r := AddType(ts, nome, id, agora);
    if r.Ok? {
      var ts' := r.value;
      NameKeyOfTrimmed(nome);
      forall i, j | 0 <= i < j < |ts'| ensures NameKey(ts'[i].nome) != NameKey(ts'[j].nome) {
        assert ts'[i] == ts[i];
        if j < |ts| { assert ts'[j] == ts[j]; }
      }
    }
  }

  /** A second type whose name differs only in case or surrounding blanks is refused. */
  lemma SecondTypeRefused(ts: seq<ExpenseType>, nome: string, id: Id, agora: Timestamp,
                          nome2: string, id2: Id, agora2: Timestamp)
    requires AddType(ts, nome, id, agora).Ok?
    requires NameKey(nome2) == NameKey(nome)
    ensures AddType(AddType(ts, nome, id, agora).value, nome2, id2, agora2) == Err(DuplicateName)
  {
    var ts' := AddType(ts, nome, id, agora).value;
    NameKeyOfTrimmed(nome);
    assert NameKey(ts'[|ts|].nome) == NameKey(nome2);
    TrimEmptyIffBlank(nome2);
    LowerTrimCommute(nome2);
    assert Trim(nome2) != [];
  }

  /** Renaming keeps the type names distinct when type ids are unique. */
  lemma RenameKeepsNamesDistinct(b: Book, id: Id, novo: string)
    requires DistinctTypeNames(b.tipos) && UniqueTypeIds(b.tipos)
    requires RenameType(b, id, novo).Ok?
    ensures DistinctTypeNames(RenameType(b, id, novo).value.tipos)
  {
    var ts, r := b.tipos, RenameType(b, id, novo).value.tipos;
    LowerTrimCommute(novo);
    NameKeyOfTrimmed(novo);
    forall i, j | 0 <= i < j < |r| ensures NameKey(r[i].nome) != NameKey(r[j].nome) {
      if ts[i].id == id {
        assert ts[j].id != id;
      } else if ts[j].id == id {
        assert ts[i].id != id;
      }
    }
  }

  /** Re-casing or re-spacing a type's own name is accepted: the clash check skips the type itself. */
  lemma RecasingOwnTypeNameAllowed(b: Book, k: nat, novo: string)
    requires DistinctTypeNames(b.tipos) && k < |b.tipos|
    requires NameKey(novo) == NameKey(b.tipos[k].nome) && Trim(novo) != []
    ensures RenameType(b, b.tipos[k].id, novo).Ok?
  {
    LowerTrimCommute(novo);
  }

  /** Renaming keeps every expense's copied name in step with its type. */
  lemma RenameKeepsNamesInSync(b: Book, id: Id, novo: string)
    requires NamesInSync(b)
    requires RenameType(b, id, novo).Ok?
    ensures NamesInSync(RenameType(b, id, novo).value)
  {
  }

  /** Adding an expense keeps the copied names in step when type ids are unique. */
  lemma AddExpenseKeepsNamesInSync(b: Book, tipoId: Id, valor: FormNumber<real>, id: Id, agora: Timestamp)
    requires NamesInSync(b) && UniqueTypeIds(b.tipos)
    requires AddExpense(b, tipoId, valor, id, agora).Ok?
    ensures NamesInSync(b.(despesas := AddExpense(b, tipoId, valor, id, agora).value))
  {
    var ds := AddExpense(b, tipoId, valor, id, agora).value;
    var b' := b.(despesas := ds);
    forall j, i | 0 <= j < |ds| && 0 <= i < |b.tipos| && b.tipos[i].id == ds[j].tipoId
      ensures ds[j].nomeTipo == b.tipos[i].nome
    {
      if j < |b.despesas| {
        assert ds[j] == b.despesas[j];
      } else {
        var k :| 0 <= k < |b.tipos| && b.tipos[k].id == tipoId && ds[j].nomeTipo == b.tipos[k].nome;
        assert k == i;
      }
    }
  }

  /** Removing a type keeps the copied names of the remaining types in step; its own expenses stay as they were. */
  lemma RemoveTypeKeepsNamesInSync(b: Book, id: Id)
    requires NamesInSync(b)
    ensures NamesInSync(RemoveType(b, id))
  {
    var r := RemoveType(b, id);
    forall j, i | 0 <= j < |r.despesas| && 0 <= i < |r.tipos| && r.tipos[i].id == r.despesas[j].tipoId
      ensures r.despesas[j].nomeTipo == r.tipos[i].nome
    {
      assert r.tipos[i] in b.tipos;
    }
  }
}
