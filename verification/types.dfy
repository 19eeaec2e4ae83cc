/**
 * The five record shapes of the ledger (src/types/index.ts) and the input and
 * error vocabulary shared by its operations.
 *
 * Money (`preco`, `valorTotal`, `valor`) is a Dafny `real`: the exact value the
 * JavaScript `number` arithmetic approximates. Counters are `int`: the sale
 * confirmation can drive a stock below zero, so they are not `nat`.
 */
module Types {
  import opened Wrappers

  /** An opaque identifier (`generateId()` or `Date.now().toString()`). */
  type Id = string
  /** An ISO-8601 timestamp string (`new Date().toISOString()`). */
  type Timestamp = string

  datatype Product = Product(
    id: Id,
    nome: string,
    preco: real,
    quantidadeEstoque: int,
    quantidadeVendida: int,
    dataCadastro: Timestamp)

  datatype Sale = Sale(
    id: Id,
    produtoId: Id,
    nomeProduto: string,
    quantidade: int,
    precoUnitario: real,
    valorTotal: real,
    data: Timestamp)

  datatype ExpenseType = ExpenseType(id: Id, nome: string, dataCadastro: Timestamp)

  datatype Expense = Expense(
    id: Id,
    tipoId: Id,
    nomeTipo: string,
    descricao: string,
    valor: real,
    data: Timestamp)

  /** `'adicao' | 'cadastro_inicial'` */
  datatype MovementKind = Adicao | CadastroInicial

  /** One entry of the stock history (`HistoricoEstoque`). */
  datatype Movement = Movement(
    id: Id,
    produtoId: Id,
    nomeProduto: string,
    tipo: MovementKind,
    quantidade: int,
    estoqueAnterior: int,
    estoqueNovo: int,
    data: Timestamp,
    observacao: Option<string>)

  /**
   * A numeric form field: `Blank` is the empty string, which the handlers
   * reject with `!field` before parsing; otherwise the result of
   * `parseInt`/`parseFloat`, `None` standing for NaN.
   */
  datatype FormNumber<T> = Blank | Typed(parsed: Option<T>)

  /** The messages the handlers show when they refuse to act. */
  datatype Error =
    | MissingFields        // "Por favor, preencha todos os campos." and similar
    | BlankName            // an empty name after trimming
    | DuplicateName        // a name that clashes, ignoring case and surrounding blanks
    | InvalidPrice         // NaN or not above zero
    | InvalidQuantity      // NaN, or out of the accepted range
    | InvalidAmount        // an expense value that is NaN or not above zero
    | ProductNotFound
    | OriginalProductNotFound
    | SaleNotFound
    | TypeNotFound
    | InsufficientStock
    | EmptyCart
    | NotJsonFile
    | MalformedJson        // the file's text is not JSON
    | InvalidBackup        // the document lacks `dados` or `versao`
    | CorruptedBackup      // a collection of the document is not a list
    | UnreadableHistory    // the document's history is null: reading its length throws
    | BackupNotFound       // no emergency backup with that id, or one without data

  type Outcome<T> = Result<T, Error>

  /** The five stores the application keeps (`App.tsx`), and the payload of a backup. */
  datatype Collections = Collections(
    produtos: seq<Product>,
    vendas: seq<Sale>,
    tiposDespesa: seq<ExpenseType>,
    despesas: seq<Expense>,
    historicoEstoque: seq<Movement>)

  /** Index of the first entry whose id is `id`, or `|xs|` when there is none. */
  function IndexById<T>(xs: seq<T>, idOf: T -> Id, id: Id): (i: nat)
    ensures i <= |xs|
    ensures i < |xs| ==> idOf(xs[i]) == id
    ensures forall j :: 0 <= j < i ==> idOf(xs[j]) != id
  {
    if xs == [] then 0 else if idOf(xs[0]) == id then 0 else 1 + IndexById(xs[1..], idOf, id)
  }

  /** The first index holding an id is the one `IndexById` finds. */
  lemma IndexByIdIsFirst<T>(xs: seq<T>, idOf: T -> Id, id: Id, i: nat)
    requires i <= |xs| && (i < |xs| ==> idOf(xs[i]) == id)
    requires forall j :: 0 <= j < i ==> idOf(xs[j]) != id
    ensures IndexById(xs, idOf, id) == i
  {
  }

  function ProductId(p: Product): Id { p.id }
  function SaleId(v: Sale): Id { v.id }
  function TypeId(t: ExpenseType): Id { t.id }

  /** Index of the first product with id `id`, or `|ps|` when there is none. */
  function ProductIndex(ps: seq<Product>, id: Id): (i: nat)
    ensures i <= |ps|
    ensures i < |ps| ==> ps[i].id == id
    ensures forall j :: 0 <= j < i ==> ps[j].id != id
  {
    IndexById(ps, ProductId, id)
  }

  /** `xs.find(p => p.id === id)` on each collection: the first entry with that id. */
  function FindProduct(ps: seq<Product>, id: Id): (r: Option<Product>)
    ensures r.None? <==> forall i :: 0 <= i < |ps| ==> ps[i].id != id
    ensures r.Some? ==> ProductIndex(ps, id) < |ps| && r.value == ps[ProductIndex(ps, id)]
    ensures r.Some? ==> r.value in ps && r.value.id == id
  {
    var i := ProductIndex(ps, id);
    if i < |ps| then Some(ps[i]) else None
  }

  /** `xs.find(x => x.id === id)` for any record: the first entry whose id is `id`, if any. */
  function FindById<T>(xs: seq<T>, idOf: T -> Id, id: Id): (r: Option<T>)
    ensures r.None? <==> forall i :: 0 <= i < |xs| ==> idOf(xs[i]) != id
    ensures r.Some? ==> r.value in xs && idOf(r.value) == id
    ensures forall i :: 0 <= i < |xs| && idOf(xs[i]) == id && (forall j :: 0 <= j < i ==> idOf(xs[j]) != id)
                        ==> r == Some(xs[i])
  {
    if xs == [] then None
    else if idOf(xs[0]) == id then Some(xs[0])
    else
      var r := FindById(xs[1..], idOf, id);
      assert forall i :: 1 <= i < |xs| ==> xs[1..][i - 1] == xs[i];
      r
  }

  function FindSale(vs: seq<Sale>, id: Id): Option<Sale> { FindById(vs, SaleId, id) }
  function FindType(ts: seq<ExpenseType>, id: Id): Option<ExpenseType> { FindById(ts, TypeId, id) }

  /** Identifiers are pairwise distinct: what `generateId()` is trusted to provide. */
  predicate UniqueProductIds(ps: seq<Product>) {
    forall i, j :: 0 <= i < j < |ps| ==> ps[i].id != ps[j].id
  }
}
