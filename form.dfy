/** The registration form's data (app/components/a.tsx:22-50, initial state
    104-131) and the state updater of its change handler (399-449): which
    field an input event writes, how each field's text is masked on the way
    in, and which other fields an edit clears. */
module Form {
  import opened Text
  import opened Formatters

  /** A chosen file; only its name matters to the component (its extension
      names the stored object). */
  datatype File = File(name: string)

  /** The form's text and select fields. */
  datatype TextField =
    | Nome | Sexo | Conselho | TipoProfissional | Banco | Agencia | Conta | Digito
    | Pix | PixType | EnderecoRua | EnderecoNumero | EnderecoBairro | EnderecoCidade
    | EnderecoComplemento | Cep | EstadoCivil | Email | Celular | Celular2

  /** The form's file inputs. */
  datatype FileField =
    | DocumentoNadaConsta | DocumentoResidencia | AnexoEstadoCivil
    | CadernetaVacina | CertificadoReservista | Foto

  /** Every key of the form: text fields, file fields and the consent box. */
  datatype Field = Text(text: TextField) | Attachment(slot: FileField) | TermoPrivacidade

  datatype FormData = FormData(
    nome: string, sexo: string, conselho: string, tipoProfissional: string,
    documentoNadaConsta: Option<File>, documentoResidencia: Option<File>,
    banco: string, agencia: string, conta: string, digito: string,
    pix: string, pixType: string,
    enderecoRua: string, enderecoNumero: string, enderecoBairro: string,
    enderecoCidade: string, enderecoComplemento: string, cep: string,
    estadoCivil: string, anexoEstadoCivil: Option<File>,
    cadernetaVacina: Option<File>, certificadoReservista: Option<File>, foto: Option<File>,
    email: string, celular: string, celular2: string,
    termoPrivacidade: bool)

  /** The form as the component starts it and as a successful submission leaves it. */
  const EmptyForm := FormData(
    "", "", "", "", None, None, "", "", "", "", "", "",
    "", "", "", "", "", "", "", None, None, None, None,
    "", "", "", false)

  function TextOf(f: FormData, k: TextField): string {
    match k
    case Nome => f.nome
    case Sexo => f.sexo
    case Conselho => f.conselho
    case TipoProfissional => f.tipoProfissional
    case Banco => f.banco
    case Agencia => f.agencia
    case Conta => f.conta
    case Digito => f.digito
    case Pix => f.pix
    case PixType => f.pixType
    case EnderecoRua => f.enderecoRua
    case EnderecoNumero => f.enderecoNumero
    case EnderecoBairro => f.enderecoBairro
    case EnderecoCidade => f.enderecoCidade
    case EnderecoComplemento => f.enderecoComplemento
    case Cep => f.cep
    case EstadoCivil => f.estadoCivil
    case Email => f.email
    case Celular => f.celular
    case Celular2 => f.celular2
  }

  function FileOf(f: FormData, s: FileField): Option<File> {
    match s
    case DocumentoNadaConsta => f.documentoNadaConsta
    case DocumentoResidencia => f.documentoResidencia
    case AnexoEstadoCivil => f.anexoEstadoCivil
    case CadernetaVacina => f.cadernetaVacina
    case CertificadoReservista => f.certificadoReservista
    case Foto => f.foto
  }

  /** `{ ...f, [k]: v }` for a text field. */
  function WithText(f: FormData, k: TextField, v: string): (g: FormData)
    ensures TextOf(g, k) == v
    ensures forall j :: j != k ==> TextOf(g, j) == TextOf(f, j)
    ensures forall s :: FileOf(g, s) == FileOf(f, s)
    ensures g.termoPrivacidade == f.termoPrivacidade
  {
    match k
    case Nome => f.(nome := v)
    case Sexo => f.(sexo := v)
    case Conselho => f.(conselho := v)
    case TipoProfissional => f.(tipoProfissional := v)
    case Banco => f.(banco := v)
    case Agencia => f.(agencia := v)
    case Conta => f.(conta := v)
    case Digito => f.(digito := v)
    case Pix => f.(pix := v)
    case PixType => f.(pixType := v)
    case EnderecoRua => f.(enderecoRua := v)
    case EnderecoNumero => f.(enderecoNumero := v)
    case EnderecoBairro => f.(enderecoBairro := v)
    case EnderecoCidade => f.(enderecoCidade := v)
    case EnderecoComplemento => f.(enderecoComplemento := v)
    case Cep => f.(cep := v)
    case EstadoCivil => f.(estadoCivil := v)
    case Email => f.(email := v)
    case Celular => f.(celular := v)
    case Celular2 => f.(celular2 := v)
  }

  /** `{ ...f, [s]: file }` for a file field. */
  function WithFile(f: FormData, s: FileField, file: Option<File>): (g: FormData)
    ensures FileOf(g, s) == file
    ensures forall t :: t != s ==> FileOf(g, t) == FileOf(f, t)
    ensures forall k :: TextOf(g, k) == TextOf(f, k)
    ensures g.termoPrivacidade == f.termoPrivacidade
  {
    match s
    case DocumentoNadaConsta => f.(documentoNadaConsta := file)
    case DocumentoResidencia => f.(documentoResidencia := file)
    case AnexoEstadoCivil => f.(anexoEstadoCivil := file)
    case CadernetaVacina => f.(cadernetaVacina := file)
    case CertificadoReservista => f.(certificadoReservista := file)
    case Foto => f.(foto := file)
  }

  /** What one key of the form holds. */
  datatype Value = Str(s: string) | Doc(file: Option<File>) | Flag(b: bool)

  function ValueOf(f: FormData, k: Field): Value {
    match k
    case Text(t) => Str(TextOf(f, t))
    case Attachment(s) => Doc(FileOf(f, s))
    case TermoPrivacidade => Flag(f.termoPrivacidade)
  }

  /** One input event, as the handler reads it from its target: the text of a
      text input or select, the first chosen file (or none) of a file input,
      the checked state of the consent box. */
  datatype Change =
    | Edit(field: TextField, value: string)
    | Pick(slot: FileField, file: Option<File>)
    | Check(checked: bool)

  /** The key an event is named after. */
  function Target(c: Change): Field {
    match c
    case Edit(k, _) => Text(k)
    case Pick(s, _) => Attachment(s)
    case Check(_) => TermoPrivacidade
  }

  /** The masks the council-number and postal-code inputs apply to their own
      text before the change handler sees it (their `onInput` hooks). */
  function TypedText(k: TextField, raw: string): string {
    if k == Conselho then FormatCoren(raw)
    else if k == Cep then FormatCep(raw)
    else raw
  }

  /** The fields whose text is cut down to its digits on the way in. */
  predicate DigitsOnlyField(k: TextField) {
    k == EnderecoNumero || k == Agencia || k == Conta || k == Digito
  }

  /** The pix key as the current key type masks it: tax ids and phone numbers
      get their masks, random keys the UUID-like mask, anything else (an email
      key, or no type yet) is stored as typed. */
  function PixText(pixType: string, value: string, previous: string): string {
    if pixType == "cpf" then FormatCpf(value)
    else if pixType == "cnpj" then FormatCnpj(value)
    else if pixType == "celular" then FormatCelular(value, Some(previous))
    else if pixType == "aleatoria" then FormatRandomPix(value)
    else value
  }

  /** The text the change handler stores for an edit of `k`, given the form
      before the edit. */
  function Processed(prev: FormData, k: TextField, v: string): string {
    if k == Celular || k == Celular2 then FormatCelular(v, Some(TextOf(prev, k)))
    else if k == Pix then PixText(prev.pixType, v, prev.pix)
    else if DigitsOnlyField(k) then Digits(v)
    else v
  }

  /** The updater the change handler passes to the form state. */
  function Updated(prev: FormData, c: Change): FormData {
    match c
    case Edit(k, v) =>
      var base := if k == PixType then prev.(pix := "") else prev;
      var next := WithText(base, k, Processed(prev, k, v));
      if k == EstadoCivil && v == "solteiro" then next.(anexoEstadoCivil := None) else next
    case Pick(s, file) => WithFile(prev, s, file)
    case Check(b) => prev.(termoPrivacidade := b)
  }

  /** The keys an event may write: its own, plus the pix key when the key
      type changes and the marital-status attachment when "solteiro" is chosen. */
  function Affected(c: Change): (ks: set<Field>)
    ensures Target(c) in ks
  {
    {Target(c)}
    + (if c.Edit? && c.field == PixType then {Text(Pix)} else {})
    + (if c == Edit(EstadoCivil, "solteiro") then {Attachment(AnexoEstadoCivil)} else {})
  }

  /** Nothing outside `Affected(c)` changes. */
  lemma UpdatedFrame(prev: FormData, c: Change, k: Field)
    requires k !in Affected(c)
    ensures ValueOf(Updated(prev, c), k) == ValueOf(prev, k)
  {
    match c
    case Edit(t, v) =>
      var base := if t == PixType then prev.(pix := "") else prev;
      assert ValueOf(base, k) == ValueOf(prev, k) by {
        if t == PixType {
          PixClearedFrame(prev, k);
        }
      }
      var next := WithText(base, t, Processed(prev, t, v));
      assert ValueOf(next, k) == ValueOf(base, k);
      if t == EstadoCivil && v == "solteiro" {
        AnexoClearedFrame(next, k);
      }
    case Pick(_, _) =>
    case Check(b) =>
      CheckedFrame(prev, b, k);
  }

  lemma PixClearedFrame(f: FormData, k: Field)
    requires k != Text(Pix)
    ensures ValueOf(f.(pix := ""), k) == ValueOf(f, k)
  {
    match k
    case Text(t) =>
    case Attachment(s) =>
    case TermoPrivacidade =>
  }

  lemma AnexoClearedFrame(f: FormData, k: Field)
    requires k != Attachment(AnexoEstadoCivil)
    ensures ValueOf(f.(anexoEstadoCivil := None), k) == ValueOf(f, k)
  {
    match k
    case Text(t) =>
    case Attachment(s) =>
    case TermoPrivacidade =>
  }

  lemma CheckedFrame(f: FormData, b: bool, k: Field)
    requires k != TermoPrivacidade
    ensures ValueOf(f.(termoPrivacidade := b), k) == ValueOf(f, k)
  {
    match k
    case Text(t) =>
    case Attachment(s) =>
    case TermoPrivacidade =>
  }

  /** The value the event's own key ends up holding. */
  lemma UpdatedTarget(prev: FormData, c: Change)
    ensures c.Pick? ==> FileOf(Updated(prev, c), c.slot) == c.file
    ensures c.Check? ==> Updated(prev, c).termoPrivacidade == c.checked
    ensures c.Edit? && (c.field == Celular || c.field == Celular2) ==>
      TextOf(Updated(prev, c), c.field) == FormatCelular(c.value, Some(TextOf(prev, c.field)))
    ensures c.Edit? && c.field == Pix ==>
      Updated(prev, c).pix == PixText(prev.pixType, c.value, prev.pix)
    ensures c.Edit? && DigitsOnlyField(c.field) ==> TextOf(Updated(prev, c), c.field) == Digits(c.value)
    ensures c.Edit? && !(c.field in {Celular, Celular2, Pix} || DigitsOnlyField(c.field)) ==>
      TextOf(Updated(prev, c), c.field) == c.value
  {
    match c
    case Edit(k, v) =>
      var base := if k == PixType then prev.(pix := "") else prev;
      var next := WithText(base, k, Processed(prev, k, v));
      assert TextOf(Updated(prev, c), k) == Processed(prev, k, v) by {
        if k == EstadoCivil && v == "solteiro" {
          assert TextOf(next.(anexoEstadoCivil := None), k) == TextOf(next, k);
        }
      }
    case Pick(_, _) =>
    case Check(_) =>
  }

  /** Choosing a key type always empties the pix key, and the new key type is
      the one chosen. */
  lemma PixTypeClearsPix(prev: FormData, t: string)
    ensures Updated(prev, Edit(PixType, t)).pix == ""
    ensures Updated(prev, Edit(PixType, t)).pixType == t
  {
  }

  /** Choosing "solteiro" drops any marital-status attachment; choosing any
      other status keeps it. */
  lemma SingleClearsAttachment(prev: FormData, status: string)
    ensures Updated(prev, Edit(EstadoCivil, status)).estadoCivil == status
    ensures Updated(prev, Edit(EstadoCivil, status)).anexoEstadoCivil
      == (if status == "solteiro" then None else prev.anexoEstadoCivil)
  {
  }

  /** The number, branch, account and check-digit fields hold exactly the
      digits typed, in order, and nothing else; text made only of digits is
      kept as typed. */
  lemma DigitsOnlyFieldsHoldDigits(prev: FormData, k: TextField, v: string)
    requires DigitsOnlyField(k)
    ensures TextOf(Updated(prev, Edit(k, v)), k) == Digits(v)
    ensures AllKept(Decimal, TextOf(Updated(prev, Edit(k, v)), k))
    ensures AllKept(Decimal, v) ==> TextOf(Updated(prev, Edit(k, v)), k) == v
  {
    if AllKept(Decimal, v) {
      FilterKept(Decimal, v);
    }
  }

  /** A mobile field always holds a masked number: at most 16 characters laid
      out as (DD) D DDDD-DDDD. */
  lemma CelularFieldsMasked(prev: FormData, k: TextField, v: string)
    requires k == Celular || k == Celular2
    ensures |TextOf(Updated(prev, Edit(k, v)), k)| <= 16
    ensures Masks.FitsTemplate(Decimal, TextOf(Updated(prev, Edit(k, v)), k), "(##) # ####-####")
  {
    CelularPromises(v, Some(TextOf(prev, k)));
  }

  /** Under a tax-id key type the pix key is masked and keeps at most 11
      (CPF) or 14 (CNPJ) digits; under a random key type at most 36
      hexadecimal digits; under a mobile key type it is masked as a mobile
      number, with the previous key as the previous text. An email key is
      stored as typed. */
  lemma PixFieldMasked(prev: FormData, v: string)
    ensures prev.pixType == "cpf" ==>
      Digits(Updated(prev, Edit(Pix, v)).pix) == Prefix(Digits(v), 11)
    ensures prev.pixType == "cnpj" ==>
      Digits(Updated(prev, Edit(Pix, v)).pix) == Prefix(Digits(v), 14)
    ensures prev.pixType == "aleatoria" ==>
      HexDigits(Updated(prev, Edit(Pix, v)).pix) == Prefix(HexDigits(v), 36)
    ensures prev.pixType == "celular" ==>
      Updated(prev, Edit(Pix, v)).pix == FormatCelular(v, Some(prev.pix))
      && Masks.FitsTemplate(Decimal, Updated(prev, Edit(Pix, v)).pix, "(##) # ####-####")
    ensures prev.pixType == "email" ==> Updated(prev, Edit(Pix, v)).pix == v
  {
    if prev.pixType == "cpf" {
      CpfPromises(v);
    } else if prev.pixType == "cnpj" {
      CnpjPromises(v);
    } else if prev.pixType == "aleatoria" {
      RandomPixPromises(v);
    } else if prev.pixType == "celular" {
      CelularPromises(v, Some(prev.pix));
    }
  }

  /** Through its input mask, the council number keeps at most 9 digits. */
  lemma TypedConselhoMasked(prev: FormData, raw: string)
    ensures Digits(Updated(prev, Edit(Conselho, TypedText(Conselho, raw))).conselho) == Prefix(Digits(raw), 9)
  {
    assert Updated(prev, Edit(Conselho, TypedText(Conselho, raw))).conselho == FormatCoren(raw);
    CorenPromises(raw);
  }

  /** Through its input mask, the postal code keeps at most 8 digits. */
  lemma TypedCepMasked(prev: FormData, raw: string)
    ensures Digits(Updated(prev, Edit(Cep, TypedText(Cep, raw))).cep) == Prefix(Digits(raw), 8)
  {
    assert Updated(prev, Edit(Cep, TypedText(Cep, raw))).cep == FormatCep(raw);
    CepPromises(raw);
  }
}
