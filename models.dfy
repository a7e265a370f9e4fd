/** The entity classes of the local application (`Cliente`, `Categoria`, `Fornecedor`,
    `Produto`, `Estoque`, `EntradaEstoque`, `Venda`, `ItemVenda`) with their `validate()`
    rules, and the CPF utilities of `FormatUtils`.

    Each `validate()` pushes one message per failed check onto a fresh list, in a fixed
    order; here every validator concatenates one `Report` per check, in that order. Numbers are already
    typed (no `parseInt`/`parseFloat` producing NaN), money is in cents, and an entity
    reference is `Option<int>` where `None` stands for `null`/`undefined`. */
module Models {
  import opened Common

  // ---------------------------------------------------------------------------
  // Collecting error messages
  // ---------------------------------------------------------------------------

  /** One `if (...) errors.push(message)` of a `validate()` method: the message when
      the check fails, nothing otherwise. A validator concatenates its checks in the
      order the source runs them. */
  function Report(failed: bool, m: Msg): (r: seq<Msg>)
    ensures m in r <==> failed
    ensures |r| <= 1 && forall x :: x in r ==> x == m
  {
    if failed then [m] else []
  }

  /** A check placed in front of checks whose messages keep the order `l` keeps the
      order `[m] + l`. */
  lemma {:induction false} ReportThen(failed: bool, m: Msg, r: seq<Msg>, l: seq<Msg>)
    requires IsSubsequence(r, l)
    ensures IsSubsequence(Report(failed, m) + r, [m] + l)
  {
    assert ([m] + l)[1..] == l;
    if failed {
      assert ([m] + r)[1..] == r;
    } else {
      assert Report(failed, m) + r == r;
    }
  }

  lemma {:induction false} Ordered2(a: bool, x: Msg, b: bool, y: Msg)
    ensures IsSubsequence(Report(a, x) + Report(b, y), [x, y])
  {
    ReportThen(b, y, [], []);
    assert Report(b, y) + [] == Report(b, y) && [y] + [] == [y];
    ReportThen(a, x, Report(b, y), [y]);
    assert [x] + [y] == [x, y];
  }

  lemma {:induction false} Ordered3(a: bool, x: Msg, b: bool, y: Msg, c: bool, z: Msg)
    ensures IsSubsequence(Report(a, x) + (Report(b, y) + Report(c, z)), [x, y, z])
  {
    Ordered2(b, y, c, z);
    ReportThen(a, x, Report(b, y) + Report(c, z), [y, z]);
    assert [x] + [y, z] == [x, y, z];
  }

  lemma {:induction false} Ordered4(a: bool, x: Msg, b: bool, y: Msg, c: bool, z: Msg, d: bool, w: Msg)
    ensures IsSubsequence(Report(a, x) + (Report(b, y) + (Report(c, z) + Report(d, w))), [x, y, z, w])
  {
    Ordered3(b, y, c, z, d, w);
    ReportThen(a, x, Report(b, y) + (Report(c, z) + Report(d, w)), [y, z, w]);
    assert [x] + [y, z, w] == [x, y, z, w];
  }

  // ---------------------------------------------------------------------------
  // JavaScript truthiness of the fields that are checked
  // ---------------------------------------------------------------------------

  /** `!(!s || s.trim() === '')`: present and not only white space. */
  predicate Filled(s: Option<string>) {
    s.Some? && Trim(s.value) != ""
  }

  /** A truthy string: present and non-empty. */
  predicate Given(s: Option<string>) {
    s.Some? && s.value != ""
  }

  /** A truthy reference: present and not 0. */
  predicate HasRef(r: Option<int>) {
    r.Some? && r.value != 0
  }

  // ---------------------------------------------------------------------------
  // isValidEmail: /^[^\s@]+@[^\s@]+\.[^\s@]+$/
  // ---------------------------------------------------------------------------

  /** A non-empty run of characters that are neither white space nor '@' (`[^\s@]+`). */
  predicate EmailPart(s: string) {
    |s| > 0 && forall i :: 0 <= i < |s| ==> !IsJsWhitespace(s[i]) && s[i] != '@'
  }

  /** A decidable form of the e-mail pattern: one local part, an '@', and a domain
      free of '@' and white space that has a '.' neither first nor last. */
  predicate IsValidEmail(e: string)
    ensures IsValidEmail(e) ==> |e| >= 5 && forall i :: 0 <= i < |e| ==> !IsJsWhitespace(e[i])
  {
    match FindFirst(e, (c: char) => c == '@')
    case None => false
    case Some(at) => EmailPart(e[..at]) && EmailDomain(e[at + 1..])
  }

  /** `[^\s@]+\.[^\s@]+` read as: no '@' or white space, and a '.' neither first nor last. */
  predicate EmailDomain(d: string) {
    && (forall i :: 0 <= i < |d| ==> !IsJsWhitespace(d[i]) && d[i] != '@')
    && exists j :: 0 < j < |d| - 1 && d[j] == '.'
  }

  /** Every string of the pattern's shape is accepted. */
  lemma {:induction false} EmailShapeAccepted(a: string, b: string, c: string)
    requires EmailPart(a) && EmailPart(b) && EmailPart(c)
    ensures IsValidEmail(a + "@" + b + "." + c)
  {
    var e := a + "@" + b + "." + c;
    var at := FindFirst(e, (ch: char) => ch == '@');
    assert e[|a|] == '@';
    assert forall i :: 0 <= i < |a| ==> e[i] == a[i];
    assert at == Some(|a|);
    var domain := e[|a| + 1..];
    assert e[..|a|] == a;
    assert domain == b + "." + c;
    assert domain[|b|] == '.';
    forall i | 0 <= i < |domain| ensures !IsJsWhitespace(domain[i]) && domain[i] != '@' {
      if i < |b| {
        assert domain[i] == b[i];
      } else if i > |b| {
        assert domain[i] == c[i - |b| - 1];
      }
    }
  }

  /** Every accepted string has the pattern's shape. */
  lemma {:induction false} EmailAcceptedHasShape(e: string) returns (a: string, b: string, c: string)
    requires IsValidEmail(e)
    ensures EmailPart(a) && EmailPart(b) && EmailPart(c)
    ensures e == a + "@" + b + "." + c
  {
    var at := FindFirst(e, (ch: char) => ch == '@').value;
    var domain := e[at + 1..];
    assert EmailDomain(domain);
    var j :| 0 < j < |domain| - 1 && domain[j] == '.';
    a := e[..at];
    b, c := DomainShape(domain, j);
    assert e[at] == '@';
    assert e == a + "@" + domain by {
      assert e == e[..at] + e[at..];
      assert e[at..] == [e[at]] + e[at + 1..];
    }
  }

  lemma DomainShape(d: string, j: nat) returns (b: string, c: string)
    requires EmailDomain(d) && 0 < j < |d| - 1 && d[j] == '.'
    ensures EmailPart(b) && EmailPart(c) && d == b + "." + c
  {
    b, c := d[..j], d[j + 1..];
    assert d == d[..j] + d[j..];
    assert d[j..] == [d[j]] + d[j + 1..];
    forall i | 0 <= i < |b| ensures !IsJsWhitespace(b[i]) && b[i] != '@' {
      assert b[i] == d[i];
    }
    forall i | 0 <= i < |c| ensures !IsJsWhitespace(c[i]) && c[i] != '@' {
      assert c[i] == d[j + 1 + i];
    }
  }

  // ---------------------------------------------------------------------------
  // The entities and their validate() rules (messages as in the source)
  // ---------------------------------------------------------------------------

  /** The messages `validate()` can report; `Text` gives the wording shown to the user. */
  datatype Msg =
    | CpfRequired
    | NomeRequired
    | EmailInvalid
    | CategoriaNomeRequired
    | FornecedorNomeRequired
    | ProdutoNomeRequired
    | CategoriaRequired
    | PrecoVendaInvalid
    | ProdutoRequired
    | QuantidadeNegativa
    | QuantidadeInvalida
    | PrecoCustoInvalid
    | TotalNegativo
    | StatusInvalido
    | VendaRequired
    | PrecoUnitarioInvalid

  function Text(m: Msg): string {
    match m
    case CpfRequired => "CPF é obrigatório"
    case NomeRequired => "Nome é obrigatório"
    case EmailInvalid => "Email inválido"
    case CategoriaNomeRequired => "Nome da categoria é obrigatório"
    case FornecedorNomeRequired => "Nome do fornecedor é obrigatório"
    case ProdutoNomeRequired => "Nome do produto é obrigatório"
    case CategoriaRequired => "Categoria é obrigatória"
    case PrecoVendaInvalid => "Preço de venda deve ser maior ou igual a zero"
    case ProdutoRequired => "Produto é obrigatório"
    case QuantidadeNegativa => "Quantidade não pode ser negativa"
    case QuantidadeInvalida => "Quantidade deve ser maior que zero"
    case PrecoCustoInvalid => "Preço de custo deve ser maior ou igual a zero"
    case TotalNegativo => "Valor total não pode ser negativo"
    case StatusInvalido => "Status da venda inválido"
    case VendaRequired => "Venda é obrigatória"
    case PrecoUnitarioInvalid => "Preço unitário deve ser maior ou igual a zero"
  }

  /** Statuses `Venda.validate` accepts. */
  const StatusValidos := ["Concluida", "Pendente", "Cancelada"]

  datatype Cliente = Cliente(
    id: Option<int>, cpf: Option<string>, nome: Option<string>,
    email: Option<string>, telefone: Option<string>, endereco: Option<string>)

  /** `email && !isValidEmail(email)`: a non-empty e-mail that does not match. */
  predicate BadEmail(email: Option<string>) {
    Given(email) && !IsValidEmail(email.value)
  }

  function ClienteErrors(c: Cliente): (errors: seq<Msg>)
    ensures errors == [] <==> Filled(c.cpf) && Filled(c.nome) && !BadEmail(c.email)
    ensures CpfRequired in errors <==> !Filled(c.cpf)
    ensures NomeRequired in errors <==> !Filled(c.nome)
    ensures EmailInvalid in errors <==> BadEmail(c.email)
    ensures IsSubsequence(errors, [CpfRequired, NomeRequired, EmailInvalid])
  {
    Ordered3(!Filled(c.cpf), CpfRequired, !Filled(c.nome), NomeRequired, BadEmail(c.email), EmailInvalid);
    Report(!Filled(c.cpf), CpfRequired)
    + (Report(!Filled(c.nome), NomeRequired)
    + Report(BadEmail(c.email), EmailInvalid))
  }

  datatype Categoria = Categoria(id: Option<int>, nomeCategoria: Option<string>, descricao: Option<string>)

  function CategoriaErrors(c: Categoria): (errors: seq<Msg>)
    ensures errors == [] <==> Filled(c.nomeCategoria)
    ensures errors != [] ==> errors == [CategoriaNomeRequired]
  {
    Report(!Filled(c.nomeCategoria), CategoriaNomeRequired)
  }

  datatype Fornecedor = Fornecedor(
    id: Option<int>, nomeFornecedor: Option<string>, contato: Option<string>,
    telefone: Option<string>, email: Option<string>)

  function FornecedorErrors(f: Fornecedor): (errors: seq<Msg>)
    ensures errors == [] <==> Filled(f.nomeFornecedor) && !BadEmail(f.email)
    ensures FornecedorNomeRequired in errors <==> !Filled(f.nomeFornecedor)
    ensures EmailInvalid in errors <==> BadEmail(f.email)
    ensures IsSubsequence(errors, [FornecedorNomeRequired, EmailInvalid])
  {
    Ordered2(!Filled(f.nomeFornecedor), FornecedorNomeRequired, BadEmail(f.email), EmailInvalid);
    Report(!Filled(f.nomeFornecedor), FornecedorNomeRequired)
    + Report(BadEmail(f.email), EmailInvalid)
  }

  datatype Produto = Produto(
    id: Option<int>, nome: Option<string>, idCategoria: Option<int>,
    precoVendaUnitario: Cents, descricao: Option<string>, ativo: bool)

  /** `!preco || preco < 0` rejects 0 as well, although the message asks for
      "maior ou igual a zero". */
  function ProdutoErrors(p: Produto): (errors: seq<Msg>)
    ensures errors == [] <==> Filled(p.nome) && HasRef(p.idCategoria) && p.precoVendaUnitario > 0
    ensures ProdutoNomeRequired in errors <==> !Filled(p.nome)
    ensures CategoriaRequired in errors <==> !HasRef(p.idCategoria)
    ensures PrecoVendaInvalid in errors <==> p.precoVendaUnitario <= 0
    ensures IsSubsequence(errors, [ProdutoNomeRequired, CategoriaRequired, PrecoVendaInvalid])
  {
    Ordered3(!Filled(p.nome), ProdutoNomeRequired, !HasRef(p.idCategoria), CategoriaRequired,
             p.precoVendaUnitario == 0 || p.precoVendaUnitario < 0, PrecoVendaInvalid);
    Report(!Filled(p.nome), ProdutoNomeRequired)
    + (Report(!HasRef(p.idCategoria), CategoriaRequired)
    + Report(p.precoVendaUnitario == 0 || p.precoVendaUnitario < 0, PrecoVendaInvalid))
  }

  datatype Estoque = Estoque(
    id: Option<int>, idProduto: Option<int>, quantidadeAtual: int, ultimaAtualizacao: Instant)

  /** A quantity of 0 is valid; only a negative one is reported. */
  function EstoqueErrors(e: Estoque): (errors: seq<Msg>)
    ensures errors == [] <==> HasRef(e.idProduto) && e.quantidadeAtual >= 0
    ensures ProdutoRequired in errors <==> !HasRef(e.idProduto)
    ensures QuantidadeNegativa in errors <==> e.quantidadeAtual < 0
    ensures IsSubsequence(errors, [ProdutoRequired, QuantidadeNegativa])
  {
    Ordered2(!HasRef(e.idProduto), ProdutoRequired, e.quantidadeAtual < 0, QuantidadeNegativa);
    Report(!HasRef(e.idProduto), ProdutoRequired)
    + Report(e.quantidadeAtual < 0, QuantidadeNegativa)
  }

  datatype EntradaEstoque = EntradaEstoque(
    id: Option<int>, idProduto: Option<int>, idFornecedor: Option<int>, quantidade: int,
    precoCustoUnitario: Cents, dataEntrada: Instant, dataValidade: Option<Date>,
    numeroLote: Option<string>)

  function EntradaEstoqueErrors(e: EntradaEstoque): (errors: seq<Msg>)
    ensures errors == [] <==> HasRef(e.idProduto) && e.quantidade > 0 && e.precoCustoUnitario > 0
    ensures ProdutoRequired in errors <==> !HasRef(e.idProduto)
    ensures QuantidadeInvalida in errors <==> e.quantidade <= 0
    ensures PrecoCustoInvalid in errors <==> e.precoCustoUnitario <= 0
    ensures IsSubsequence(errors, [ProdutoRequired, QuantidadeInvalida, PrecoCustoInvalid])
  {
    Ordered3(!HasRef(e.idProduto), ProdutoRequired, e.quantidade == 0 || e.quantidade <= 0, QuantidadeInvalida,
             e.precoCustoUnitario == 0 || e.precoCustoUnitario < 0, PrecoCustoInvalid);
    Report(!HasRef(e.idProduto), ProdutoRequired)
    + (Report(e.quantidade == 0 || e.quantidade <= 0, QuantidadeInvalida)
    + Report(e.precoCustoUnitario == 0 || e.precoCustoUnitario < 0, PrecoCustoInvalid))
  }

  datatype Venda = Venda(
    id: Option<int>, idCliente: Option<int>, dataVenda: Instant, valorTotalVenda: Cents,
    statusVenda: string)

  function VendaErrors(v: Venda): (errors: seq<Msg>)
    ensures errors == [] <==> v.valorTotalVenda >= 0 && v.statusVenda in StatusValidos
    ensures TotalNegativo in errors <==> v.valorTotalVenda < 0
    ensures StatusInvalido in errors <==>
      v.statusVenda != "Concluida" && v.statusVenda != "Pendente" && v.statusVenda != "Cancelada"
    ensures IsSubsequence(errors, [TotalNegativo, StatusInvalido])
  {
    Ordered2(v.valorTotalVenda < 0, TotalNegativo, v.statusVenda !in StatusValidos, StatusInvalido);
    Report(v.valorTotalVenda < 0, TotalNegativo)
    + Report(v.statusVenda !in StatusValidos, StatusInvalido)
  }

  /** The status both stores write for a new sale, "concluida", is not one of the
      capitalised statuses `Venda.validate` accepts. */
  lemma StoredSaleStatusFailsValidation(v: Venda)
    requires v.statusVenda == "concluida"
    ensures StatusInvalido in VendaErrors(v)
  {
  }

  /** A line of a sale. Only this entity changes a field after construction
      (`calculateSubtotal`), so it is a class. */
  class ItemVenda {
    var id: Option<int>
    var idVenda: Option<int>
    var idProduto: Option<int>
    var quantidade: int
    var precoUnitarioVenda: Cents
    var subtotal: Cents

    /** The subtotal is the one given, or `quantidade * precoUnitarioVenda` when none is. */
    constructor (id: Option<int>, idVenda: Option<int>, idProduto: Option<int>,
                 quantidade: int, precoUnitarioVenda: Cents, subtotal: Option<Cents>)
      ensures this.id == id && this.idVenda == idVenda && this.idProduto == idProduto
      ensures this.quantidade == quantidade && this.precoUnitarioVenda == precoUnitarioVenda
      ensures subtotal.Some? ==> this.subtotal == subtotal.value
      ensures subtotal.None? ==> SubtotalConsistent()
    {
      this.id := id;
      this.idVenda := idVenda;
      this.idProduto := idProduto;
      this.quantidade := quantidade;
      this.precoUnitarioVenda := precoUnitarioVenda;
      this.subtotal := if subtotal.Some? then subtotal.value else quantidade * precoUnitarioVenda;
    }

    predicate SubtotalConsistent()
      reads this
    {
      subtotal == quantidade * precoUnitarioVenda
    }

    function Errors(): (errors: seq<Msg>)
      reads this
      ensures errors == [] <==> HasRef(idVenda) && HasRef(idProduto) && quantidade > 0 && precoUnitarioVenda > 0
      ensures VendaRequired in errors <==> !HasRef(idVenda)
      ensures ProdutoRequired in errors <==> !HasRef(idProduto)
      ensures QuantidadeInvalida in errors <==> quantidade <= 0
      ensures PrecoUnitarioInvalid in errors <==> precoUnitarioVenda <= 0
      ensures IsSubsequence(errors, [VendaRequired, ProdutoRequired, QuantidadeInvalida, PrecoUnitarioInvalid])
    {
      var noSale, noProduct := !HasRef(idVenda), !HasRef(idProduto);
      var badQuantity := quantidade == 0 || quantidade <= 0;
      var badPrice := precoUnitarioVenda == 0 || precoUnitarioVenda < 0;
      Ordered4(noSale, VendaRequired, noProduct, ProdutoRequired, badQuantity, QuantidadeInvalida, badPrice, PrecoUnitarioInvalid);
      Report(noSale, VendaRequired)
      + (Report(noProduct, ProdutoRequired)
      + (Report(badQuantity, QuantidadeInvalida)
      + Report(badPrice, PrecoUnitarioInvalid)))
    }

    /** Recomputes the subtotal from quantity and unit price and returns it. */
    method CalculateSubtotal() returns (r: Cents)
      modifies this`subtotal
      ensures SubtotalConsistent() && r == subtotal
    {
      subtotal := quantidade * precoUnitarioVenda;
      r := subtotal;
    }
  }

  // ---------------------------------------------------------------------------
  // FormatUtils: cleanCPF, formatCPF, isValidCPF
  // ---------------------------------------------------------------------------

  /** `\d` without the `u` flag: the ASCII digits. */
  predicate IsDigit(c: char) {
    '0' <= c <= '9'
  }

  predicate AllDigits(s: string) {
    forall i :: 0 <= i < |s| ==> IsDigit(s[i])
  }

  /** `cpf.replace(/\D/g, '')`: keeps the digits, in order, and drops everything else. */
  function CleanCPF(s: string): (r: string)
    ensures AllDigits(r) && |r| <= |s|
  {
    if s == [] then []
    else if IsDigit(s[0]) then [s[0]] + CleanCPF(s[1..]) else CleanCPF(s[1..])
  }

  /** Cleaning keeps the digits in their order and every occurrence of each digit. */
  lemma {:induction false} CleanKeepsDigits(s: string)
    ensures IsSubsequence(CleanCPF(s), s)
    ensures forall c :: IsDigit(c) ==> multiset(CleanCPF(s))[c] == multiset(s)[c]
  {
    if s != [] {
      CleanKeepsDigits(s[1..]);
      assert s == [s[0]] + s[1..];
    }
  }

  lemma {:induction false} CleanOfDigits(s: string)
    requires AllDigits(s)
    ensures CleanCPF(s) == s
  {
    if s != [] {
      CleanOfDigits(s[1..]);
    }
  }

  /** Cleaning is idempotent. */
  lemma CleanIdempotent(s: string)
    ensures CleanCPF(CleanCPF(s)) == CleanCPF(s)
  {
    CleanOfDigits(CleanCPF(s));
  }

  /** Cleaning leaves a string unchanged exactly when it is all digits. */
  lemma CleanFixedIffDigits(s: string)
    ensures CleanCPF(s) == s <==> AllDigits(s)
  {
    if AllDigits(s) {
      CleanOfDigits(s);
    }
  }

  lemma {:induction false} CleanConcat(a: string, b: string)
    ensures CleanCPF(a + b) == CleanCPF(a) + CleanCPF(b)
  {
    if a == [] {
      assert a + b == b;
    } else {
      assert (a + b)[0] == a[0];
      assert (a + b)[1..] == a[1..] + b;
      CleanConcat(a[1..], b);
    }
  }

  /** Eleven digits start at position i. */
  predicate DigitRunAt(s: string, i: nat) {
    i + 11 <= |s| && AllDigits(s[i..i + 11])
  }

  /** Where the unanchored pattern /(\d{3})(\d{3})(\d{3})(\d{2})/ first matches, at or after `from`. */
  function FirstRun(s: string, from: nat): (r: Option<nat>)
    ensures r.Some? ==> from <= r.value && DigitRunAt(s, r.value)
    ensures r.Some? ==> forall j :: from <= j < r.value ==> !DigitRunAt(s, j)
    ensures r.None? ==> forall j :: from <= j ==> !DigitRunAt(s, j)
    decreases |s| - from
  {
    if from + 11 > |s| then None
    else if DigitRunAt(s, from) then Some(from)
    else FirstRun(s, from + 1)
  }

  /** '$1.$2.$3-$4' applied to eleven characters. */
  function Dotted(d: string): (r: string)
    requires |d| == 11
    ensures |r| == 14 && r[3] == '.' && r[7] == '.' && r[11] == '-'
  {
    d[..3] + "." + d[3..6] + "." + d[6..9] + "-" + d[9..]
  }

  /** `cpf.replace(/(\d{3})(\d{3})(\d{3})(\d{2})/, '$1.$2.$3-$4')`: the first run of
      eleven digits, wherever it starts, gets its separators; the rest is unchanged. */
  function FormatCPF(s: string): (r: string)
    ensures FirstRun(s, 0).None? ==> r == s
    ensures |r| == |s| + (if FirstRun(s, 0).Some? then 3 else 0)
  {
    match FirstRun(s, 0)
    case None => s
    case Some(i) => s[..i] + Dotted(s[i..i + 11]) + s[i + 11..]
  }

  /** Eleven bare digits are formatted as "ddd.ddd.ddd-dd". */
  lemma FormatElevenDigits(d: string)
    requires |d| == 11 && AllDigits(d)
    ensures FormatCPF(d) == d[..3] + "." + d[3..6] + "." + d[6..9] + "-" + d[9..]
  {
    RunAtStart(d);
    assert d[0..11] == d && d[..0] == [] && d[11..] == [];
    assert FormatCPF(d) == [] + Dotted(d) + [];
  }

  /** A string of eleven digits is matched from its first character. */
  lemma RunAtStart(d: string)
    requires |d| == 11 && AllDigits(d)
    ensures FirstRun(d, 0) == Some(0)
  {
    assert d[0..11] == d;
  }

  /** Dropping one non-digit character between two strings. */
  lemma CleanSkip(a: string, c: char, b: string)
    requires !IsDigit(c)
    ensures CleanCPF(a + [c] + b) == CleanCPF(a) + CleanCPF(b)
  {
    CleanConcat(a + [c], b);
    CleanConcat(a, [c]);
    assert CleanCPF([c]) == [];
  }

  lemma CleanDotted(d: string)
    requires |d| == 11 && AllDigits(d)
    ensures CleanCPF(Dotted(d)) == d
  {
    var p1, p2, p3, p4 := d[..3], d[3..6], d[6..9], d[9..];
    CleanOfDigits(p1);
    CleanOfDigits(p2);
    CleanOfDigits(p3);
    CleanOfDigits(p4);
    var x3 := p1 + "." + p2 + "." + p3;
    assert Dotted(d) == x3 + ['-'] + p4;
    CleanSkip(x3, '-', p4);
    var x2 := p1 + "." + p2;
    assert x3 == x2 + ['.'] + p3;
    CleanSkip(x2, '.', p3);
    assert x2 == p1 + ['.'] + p2;
    CleanSkip(p1, '.', p2);
    assert d == p1 + p2 + p3 + p4;
  }

  /** Formatting only inserts separators: cleaning a formatted string gives the same
      digits as cleaning the original. */
  lemma CleanAfterFormat(s: string)
    ensures CleanCPF(FormatCPF(s)) == CleanCPF(s)
  {
    match FirstRun(s, 0)
    case None =>
    case Some(i) =>
      var run := s[i..i + 11];
      CleanDotted(run);
      CleanOfDigits(run);
      CleanConcat(s[..i] + Dotted(run), s[i + 11..]);
      CleanConcat(s[..i], Dotted(run));
      CleanConcat(s[..i] + run, s[i + 11..]);
      CleanConcat(s[..i], run);
      assert s == s[..i] + run + s[i + 11..];
  }

  /** Round trip: an eleven-digit CPF survives formatting followed by cleaning. */
  lemma FormatThenClean(d: string)
    requires |d| == 11 && AllDigits(d)
    ensures CleanCPF(FormatCPF(d)) == d
  {
    CleanAfterFormat(d);
    CleanOfDigits(d);
  }

  function DigitValue(c: char): int {
    (c as int) - ('0' as int)
  }

  /** Sum over i < k of DigitValue(d[i]) * (top - i). */
  function WeightedSum(d: string, k: nat, top: int): int
    requires k <= |d|
  {
    if k == 0 then 0 else WeightedSum(d, k - 1, top) + DigitValue(d[k - 1]) * (top - (k - 1))
  }

  /** The modulus-11 check digit over the first k digits, weights k+1 down to 2:
      remainder of ten times the weighted sum by 11, with 10 replaced by 0. */
  function CheckDigit(d: string, k: nat): (r: int)
    requires k <= |d|
    ensures 0 <= r <= 9
  {
    var rem := (WeightedSum(d, k, k + 1) * 10) % 11;
    if rem == 10 then 0 else rem
  }

  /** `/^(\d)\1{10}$/`: eleven copies of one digit. */
  predicate RepeatedDigit(d: string) {
    |d| == 11 && IsDigit(d[0]) && forall i :: 0 <= i < |d| ==> d[i] == d[0]
  }

  /** What `isValidCPF` accepts, stated on the cleaned string. */
  predicate ValidCpfDigits(d: string) {
    && |d| == 11
    && !RepeatedDigit(d)
    && CheckDigit(d, 9) == DigitValue(d[9])
    && CheckDigit(d, 10) == DigitValue(d[10])
  }

  /** `FormatUtils.isValidCPF`, with its two accumulation loops. The source's
      `remainder === 11` test cannot succeed, since a remainder by 11 is at most 10. */
  method IsValidCPF(cpf: string) returns (valid: bool)
    ensures valid == ValidCpfDigits(CleanCPF(cpf))
    ensures |CleanCPF(cpf)| != 11 ==> !valid
    ensures RepeatedDigit(CleanCPF(cpf)) ==> !valid
  {
    var d := CleanCPF(cpf);
    if |d| != 11 || RepeatedDigit(d) {
      return false;
    }
    var sum := 0;
    for i := 0 to 9
      invariant sum == WeightedSum(d, i, 10)
    {
      sum := sum + DigitValue(d[i]) * (10 - i);
    }
    var remainder := (sum * 10) % 11;
    if remainder == 10 || remainder == 11 {
      remainder := 0;
    }
    if remainder != DigitValue(d[9]) {
      return false;
    }
    sum := 0;
    for i := 0 to 10
      invariant sum == WeightedSum(d, i, 11)
    {
      sum := sum + DigitValue(d[i]) * (11 - i);
    }
    remainder := (sum * 10) % 11;
    if remainder == 10 || remainder == 11 {
      remainder := 0;
    }
    if remainder != DigitValue(d[10]) {
      return false;
    }
    return true;
  }

  lemma {:induction false} WeightedSumPrefix(d1: string, d2: string, k: nat, top: int)
    requires k <= |d1| && k <= |d2| && d1[..k] == d2[..k]
    ensures WeightedSum(d1, k, top) == WeightedSum(d2, k, top)
  {
    if k > 0 {
      assert d1[..k - 1] == d1[..k][..k - 1] && d2[..k - 1] == d2[..k][..k - 1];
      assert d1[k - 1] == d1[..k][k - 1] && d2[k - 1] == d2[..k][k - 1];
      WeightedSumPrefix(d1, d2, k - 1, top);
    }
  }

  /** The two check digits are determined by the first nine: two valid CPFs that
      agree on their first nine digits are equal. */
  lemma CheckDigitsDetermined(d1: string, d2: string)
    requires ValidCpfDigits(d1) && ValidCpfDigits(d2)
    requires d1[..9] == d2[..9]
    ensures d1 == d2
  {
    WeightedSumPrefix(d1, d2, 9, 10);
    assert d1[9] == d2[9];
    assert d1[..10] == d1[..9] + [d1[9]] && d2[..10] == d2[..9] + [d2[9]];
    WeightedSumPrefix(d1, d2, 10, 11);
    assert d1[10] == d2[10];
    assert d1 == d1[..10] + [d1[10]] && d2 == d2[..10] + [d2[10]];
  }

  function DigitChar(v: int): (c: char)
    requires 0 <= v <= 9
    ensures IsDigit(c) && DigitValue(c) == v
  {
    (('0' as int) + v) as char
  }

  /** The nine digits followed by the two check digits they call for. */
  function CompleteCpf(nine: string): (d: string)
    requires |nine| == 9
    ensures |d| == 11 && d[..9] == nine
  {
    var ten := nine + [DigitChar(CheckDigit(nine, 9))];
    ten + [DigitChar(CheckDigit(ten, 10))]
  }

  /** Completing nine digits passes both check-digit tests, so it is valid exactly
      when it is not one digit repeated; with CheckDigitsDetermined this makes it the
      only candidate with that prefix. */
  lemma CompleteCpfValid(nine: string)
    requires |nine| == 9
    ensures ValidCpfDigits(CompleteCpf(nine)) <==> !RepeatedDigit(CompleteCpf(nine))
  {
    var d := CompleteCpf(nine);
    var ten := nine + [DigitChar(CheckDigit(nine, 9))];
    assert d[..9] == nine[..9];
    WeightedSumPrefix(d, nine, 9, 10);
    assert d[..10] == ten[..10];
    WeightedSumPrefix(d, ten, 10, 11);
  }
}
