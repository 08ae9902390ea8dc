/** The form's validation (app/components/a.tsx:275-383): which keys get an
    error message, and which message, for a given form. The two regular
    expressions it uses become predicates. */
module Validation {
  import opened Text
  import opened Masks
  import opened Formatters
  import opened Form

  // ---------------------------------------------------------------------
  // The two regular expressions.
  // ---------------------------------------------------------------------

  /** A character `\s` matches: the ECMAScript white space and line
      terminators. */
  predicate IsSpace(c: char) {
    c == '\t' || c == '\n' || c == '\U{0B}' || c == '\U{0C}' || c == '\r' || c == ' '
    || c == '\U{A0}' || c == '\U{1680}' || '\U{2000}' <= c <= '\U{200A}'
    || c == '\U{2028}' || c == '\U{2029}' || c == '\U{202F}' || c == '\U{205F}'
    || c == '\U{3000}' || c == '\U{FEFF}'
  }

  /** A character `[^\s@]` matches. */
  predicate EmailChar(c: char) {
    !IsSpace(c) && c != '@'
  }

  predicate EmailChars(s: string) {
    forall i :: 0 <= i < |s| ==> EmailChar(s[i])
  }

  /** `^[^\s@]+@[^\s@]+\.[^\s@]+$`: the text splits at an '@' and at a later
      '.' into three non-empty runs free of white space and '@'. */
  predicate MatchesEmail(s: string) {
    exists at, dot | 0 < at && at + 1 < dot < |s| - 1 ::
      s[at] == '@' && s[dot] == '.'
      && EmailChars(s[..at]) && EmailChars(s[at + 1..dot]) && EmailChars(s[dot + 1..])
  }

  /** The indices the textual UUID pattern reserves for '-'. */
  predicate UuidDash(i: int) {
    i == 8 || i == 13 || i == 18 || i == 23
  }

  /** `^[0-9a-fA-F]{8}-[0-9a-fA-F]{4}-[0-9a-fA-F]{4}-[0-9a-fA-F]{4}-[0-9a-fA-F]{12}$`. */
  predicate MatchesUuid(s: string) {
    |s| == 36 && forall i :: 0 <= i < 36 ==> if UuidDash(i) then s[i] == '-' else IsHex(s[i])
  }

  /** What the email pattern asks, without the three-way split: no white
      space, exactly one '@', not first, and a '.' strictly inside the text
      after it with something on either side. */
  lemma EmailShape(s: string)
    ensures MatchesEmail(s) <==>
      (forall i :: 0 <= i < |s| ==> !IsSpace(s[i]))
      && multiset(s)['@'] == 1
      && exists at, dot | 0 < at && at + 1 < dot < |s| - 1 :: s[at] == '@' && s[dot] == '.'
  {
    if MatchesEmail(s) {
      EmailShapeOf(s);
    }
    if (forall i :: 0 <= i < |s| ==> !IsSpace(s[i])) && multiset(s)['@'] == 1
       && exists at, dot | 0 < at && at + 1 < dot < |s| - 1 :: s[at] == '@' && s[dot] == '.'
    {
      var at, dot :| 0 < at && at + 1 < dot < |s| - 1 && s[at] == '@' && s[dot] == '.';
      EmailOfShape(s, at, dot);
    }
  }

  lemma EmailShapeOf(s: string)
    requires MatchesEmail(s)
    ensures (forall i :: 0 <= i < |s| ==> !IsSpace(s[i])) && multiset(s)['@'] == 1
    ensures exists at, dot | 0 < at && at + 1 < dot < |s| - 1 :: s[at] == '@' && s[dot] == '.'
  {
    var at, dot :| 0 < at && at + 1 < dot < |s| - 1 && s[at] == '@' && s[dot] == '.'
      && EmailChars(s[..at]) && EmailChars(s[at + 1..dot]) && EmailChars(s[dot + 1..]);
    EmailCharsJoin(s, at, dot);
    AtCount(s, at);
  }

  lemma EmailOfShape(s: string, at: nat, dot: nat)
    requires forall i :: 0 <= i < |s| ==> !IsSpace(s[i])
    requires multiset(s)['@'] == 1
    requires 0 < at && at + 1 < dot < |s| - 1 && s[at] == '@' && s[dot] == '.'
    ensures MatchesEmail(s)
  {
    AtCount(s, at);
    assert EmailChars(s[..at]) && EmailChars(s[at + 1..dot]) && EmailChars(s[dot + 1..]) by {
      forall i | 0 <= i < |s| && i != at ensures EmailChar(s[i]) {
        OnlyAt(s, at, i);
      }
    }
  }

  /** With an '@' at `at`, the text has one '@' exactly when it has none elsewhere. */
  lemma AtCount(s: string, at: nat)
    requires at < |s| && s[at] == '@'
    ensures multiset(s)['@'] == 1 <==> forall i :: 0 <= i < |s| && i != at ==> s[i] != '@'
  {
    assert s == s[..at] + [s[at]] + s[at + 1..];
    assert multiset(s) == multiset(s[..at]) + multiset{'@'} + multiset(s[at + 1..]);
    var pre, post := s[..at], s[at + 1..];
    if forall i :: 0 <= i < |s| && i != at ==> s[i] != '@' {
      assert '@' !in multiset(pre) by {
        forall i | 0 <= i < |pre| ensures pre[i] != '@' {
          assert pre[i] == s[i];
        }
      }
      assert '@' !in multiset(post) by {
        forall i | 0 <= i < |post| ensures post[i] != '@' {
          assert post[i] == s[at + 1 + i];
        }
      }
    }
    if multiset(s)['@'] == 1 {
      forall i | 0 <= i < |s| && i != at ensures s[i] != '@' {
        if i < at {
          assert s[i] == pre[i] && pre[i] in multiset(pre);
        } else {
          assert s[i] == post[i - at - 1] && post[i - at - 1] in multiset(post);
        }
      }
    }
  }

  /** The three runs of a match, seen from the whole text. */
  lemma EmailCharsJoin(s: string, at: nat, dot: nat)
    requires at < dot < |s|
    requires EmailChars(s[..at]) && EmailChars(s[at + 1..dot]) && EmailChars(s[dot + 1..])
    ensures forall i :: 0 <= i < |s| && i != at && i != dot ==> EmailChar(s[i])
  {
    forall i | 0 <= i < |s| && i != at && i != dot ensures EmailChar(s[i]) {
      if i < at {
        assert s[i] == s[..at][i];
      } else if i < dot {
        assert s[i] == s[at + 1..dot][i - at - 1];
      } else {
        assert s[i] == s[dot + 1..][i - dot - 1];
      }
    }
  }

  /** Any character other than the '@' at `at` is an email character, given
      no white space and no other '@'. */
  lemma OnlyAt(s: string, at: nat, i: nat)
    requires at < |s| && i < |s| && i != at
    requires forall j :: 0 <= j < |s| ==> !IsSpace(s[j])
    requires multiset(s)['@'] == 1 && s[at] == '@'
    ensures EmailChar(s[i])
  {
    AtCount(s, at);
  }

  // ---------------------------------------------------------------------
  // The messages.
  // ---------------------------------------------------------------------

  const Required := "Este campo é obrigatório."
  const EmailInvalid := "Formato de email inválido."
  const ConselhoInvalid := "Número do Conselho inválido (esperado 9 dígitos)."
  const CepInvalid := "CEP inválido (esperado 8 dígitos)."
  const CelularInvalid := "Celular inválido (esperado 11 dígitos para o formato (XX) X XXXX-XXXX)."
  const Celular2Invalid := "Celular opcional inválido (esperado 11 dígitos para o formato (XX) X XXXX-XXXX)."
  const PixCpfInvalid := "CPF inválido (esperado 11 dígitos)."
  const PixCnpjInvalid := "CNPJ inválido (esperado 14 dígitos)."
  const PixCelularInvalid := "Número de celular inválido (esperado 10 ou 11 dígitos)."
  const PixRandomInvalid := "Chave aleatória inválida (formato UUID)."
  const PixTypeMissing := "Por favor, selecione o tipo de chave PIX."
  const NadaConstaMissing := "Documento Nada Consta é obrigatório."
  const ResidenciaMissing := "Comprovante de Residência é obrigatório."
  const VacinaMissing := "Caderneta de Vacinação é obrigatória."
  const FotoMissing := "Foto é obrigatória."
  const AnexoMissing := "Anexo Estado Civil é obrigatório para o seu estado civil."
  const ReservistaMissing := "Certificado de Reservista é obrigatório para homens."
  const TermoMissing := "É necessário declarar que as informações são verdadeiras."

  /** The text and select fields that must not be left empty, in the order
      the component checks them. */
  const RequiredFields: seq<TextField> := [
    Nome, Sexo, Conselho, TipoProfissional, Banco, Agencia,
    Conta, Digito, PixType, EnderecoRua, EnderecoNumero, EnderecoBairro,
    EnderecoCidade, Cep, Celular, EstadoCivil, Email]

  type Errors = map<Field, string>

  /** Every key of the form. */
  const AllFields: set<Field> := {
    Text(Nome), Text(Sexo), Text(Conselho), Text(TipoProfissional), Text(Banco), Text(Agencia),
    Text(Conta), Text(Digito), Text(Pix), Text(PixType), Text(EnderecoRua), Text(EnderecoNumero),
    Text(EnderecoBairro), Text(EnderecoCidade), Text(EnderecoComplemento), Text(Cep),
    Text(EstadoCivil), Text(Email), Text(Celular), Text(Celular2),
    Attachment(DocumentoNadaConsta), Attachment(DocumentoResidencia), Attachment(AnexoEstadoCivil),
    Attachment(CadernetaVacina), Attachment(CertificadoReservista), Attachment(Foto),
    TermoPrivacidade}

  lemma AllFieldsComplete(k: Field)
    ensures k in AllFields
  {
    match k
    case Text(t) =>
      match t {
        case Nome => case Sexo => case Conselho => case TipoProfissional => case Banco =>
        case Agencia => case Conta => case Digito => case Pix => case PixType =>
        case EnderecoRua => case EnderecoNumero => case EnderecoBairro => case EnderecoCidade =>
        case EnderecoComplemento => case Cep => case EstadoCivil => case Email =>
        case Celular => case Celular2 =>
      }
    case Attachment(s) =>
      match s {
        case DocumentoNadaConsta => case DocumentoResidencia => case AnexoEstadoCivil =>
        case CadernetaVacina => case CertificadoReservista => case Foto =>
      }
    case TermoPrivacidade =>
  }

  // ---------------------------------------------------------------------
  // The validation as the component runs it.
  // ---------------------------------------------------------------------

  /** The check of the pix key against its key type; an unknown type is not checked. */
  function PixError(pixType: string, pix: string): Option<string> {
    var n := |Digits(pix)|;
    if pixType == "cpf" then (if n != 11 then Some(PixCpfInvalid) else None)
    else if pixType == "cnpj" then (if n != 14 then Some(PixCnpjInvalid) else None)
    else if pixType == "email" then (if !MatchesEmail(pix) then Some(EmailInvalid) else None)
    else if pixType == "celular" then (if n < 10 || n > 11 then Some(PixCelularInvalid) else None)
    else if pixType == "aleatoria" then (if !MatchesUuid(pix) then Some(PixRandomInvalid) else None)
    else None
  }

  /** `errors[k] = msg` when `cond` holds, read for one key. */
  function Overwrite(v: Option<string>, cond: bool, msg: string): Option<string> {
    if cond then Some(msg) else v
  }

  /** What `validateForm` leaves on key `k`: the component's checks in its
      own order, each failing check for `k` replacing what an earlier one put
      there. */
  function Verdict(f: FormData, k: Field): Option<string> {
    // the required text and select fields
    var v0 := if k.Text? && k.text in RequiredFields && TextOf(f, k.text) == "" then Some(Required) else None;
    // formats
    var v1 := Overwrite(v0, k == Text(Email) && f.email != "" && !MatchesEmail(f.email), EmailInvalid);
    var v2 := Overwrite(v1, k == Text(Conselho) && f.conselho != "" && |Digits(f.conselho)| != 9, ConselhoInvalid);
    var v3 := Overwrite(v2, k == Text(Cep) && f.cep != "" && |Digits(f.cep)| != 8, CepInvalid);
    var v4 := Overwrite(v3, k == Text(Celular) && |Digits(f.celular)| != 11, CelularInvalid);
    var v5 := Overwrite(v4, k == Text(Celular2) && f.celular2 != "" && |Digits(f.celular2)| != 11, Celular2Invalid);
    // the pix key under its type, or a key with no type
    var v6 :=
      if f.pixType != "" then
        (var p := PixError(f.pixType, f.pix); if k == Text(Pix) && p.Some? then p else v5)
      else Overwrite(v5, k == Text(PixType) && f.pix != "", PixTypeMissing);
    // attachments and the declaration
    var v7 := Overwrite(v6, k == Attachment(DocumentoNadaConsta) && f.documentoNadaConsta.None?, NadaConstaMissing);
    var v8 := Overwrite(v7, k == Attachment(DocumentoResidencia) && f.documentoResidencia.None?, ResidenciaMissing);
    var v9 := Overwrite(v8, k == Attachment(CadernetaVacina) && f.cadernetaVacina.None?, VacinaMissing);
    var v10 := Overwrite(v9, k == Attachment(Foto) && f.foto.None?, FotoMissing);
    var v11 := Overwrite(v10, k == Attachment(AnexoEstadoCivil) && f.estadoCivil != ""
                              && f.estadoCivil != "solteiro" && f.anexoEstadoCivil.None?, AnexoMissing);
    var v12 := Overwrite(v11, k == Attachment(CertificadoReservista) && f.sexo == "homem"
                              && f.certificadoReservista.None?, ReservistaMissing);
    Overwrite(v12, k == TermoPrivacidade && !f.termoPrivacidade, TermoMissing)
  }

  /** `validateForm`: the error message of every key that has one. */
  function ValidateForm(f: FormData): (errors: Errors)
    ensures forall k :: k in errors <==> FieldError(f, k).Some?
    ensures forall k :: k in errors ==> errors[k] == FieldError(f, k).value
  {
    assert forall k :: k in AllFields by {
      forall k ensures k in AllFields { AllFieldsComplete(k); }
    }
    assert forall k :: Verdict(f, k) == FieldError(f, k) by {
      forall k ensures Verdict(f, k) == FieldError(f, k) { VerdictByField(f, k); }
    }
    map k | k in AllFields && Verdict(f, k).Some? :: Verdict(f, k).value
  }

  // ---------------------------------------------------------------------
  // The same verdict, key by key.
  // ---------------------------------------------------------------------

  /** The message that ends up on one key, read off the form directly: the
      reference the sequential validation is proved against. */
  function FieldError(f: FormData, k: Field): Option<string> {
    match k
    case Text(t) => TextError(f, t)
    case Attachment(s) => AttachmentError(f, s)
    case TermoPrivacidade => if f.termoPrivacidade then None else Some(TermoMissing)
  }

  /** A required text with no further check: only emptiness is an error. */
  function RequiredError(v: string): Option<string> {
    if v == "" then Some(Required) else None
  }

  /** A required text with a digit count: empty, or the wrong number of digits. */
  function DigitCountError(v: string, n: nat, msg: string): Option<string> {
    if v == "" then Some(Required) else if |Digits(v)| != n then Some(msg) else None
  }

  function TextError(f: FormData, t: TextField): Option<string> {
    match t
    case Nome => RequiredError(f.nome)
    case Sexo => RequiredError(f.sexo)
    case Conselho => DigitCountError(f.conselho, 9, ConselhoInvalid)
    case TipoProfissional => RequiredError(f.tipoProfissional)
    case Banco => RequiredError(f.banco)
    case Agencia => RequiredError(f.agencia)
    case Conta => RequiredError(f.conta)
    case Digito => RequiredError(f.digito)
    case Pix => if f.pixType == "" then None else PixError(f.pixType, f.pix)
    case PixType =>
      if f.pixType != "" then None else if f.pix != "" then Some(PixTypeMissing) else Some(Required)
    case EnderecoRua => RequiredError(f.enderecoRua)
    case EnderecoNumero => RequiredError(f.enderecoNumero)
    case EnderecoBairro => RequiredError(f.enderecoBairro)
    case EnderecoCidade => RequiredError(f.enderecoCidade)
    case EnderecoComplemento => None
    case Cep => DigitCountError(f.cep, 8, CepInvalid)
    case EstadoCivil => RequiredError(f.estadoCivil)
    case Email =>
      if f.email == "" then Some(Required) else if !MatchesEmail(f.email) then Some(EmailInvalid) else None
    case Celular => if |Digits(f.celular)| != 11 then Some(CelularInvalid) else None
    case Celular2 => if f.celular2 != "" && |Digits(f.celular2)| != 11 then Some(Celular2Invalid) else None
  }

  function AttachmentError(f: FormData, s: FileField): Option<string> {
    match s
    case DocumentoNadaConsta => if f.documentoNadaConsta.None? then Some(NadaConstaMissing) else None
    case DocumentoResidencia => if f.documentoResidencia.None? then Some(ResidenciaMissing) else None
    case AnexoEstadoCivil =>
      if f.estadoCivil != "" && f.estadoCivil != "solteiro" && f.anexoEstadoCivil.None? then Some(AnexoMissing)
      else None
    case CadernetaVacina => if f.cadernetaVacina.None? then Some(VacinaMissing) else None
    case CertificadoReservista =>
      if f.sexo == "homem" && f.certificadoReservista.None? then Some(ReservistaMissing) else None
    case Foto => if f.foto.None? then Some(FotoMissing) else None
  }

  /** The required fields are all text fields except the pix key, the
      address complement and the second mobile number. */
  lemma RequiredFieldsAre(t: TextField)
    ensures t in RequiredFields <==> !(t == Pix || t == EnderecoComplemento || t == Celular2)
  {
    match t {
      case Nome => assert RequiredFields[0] == Nome;
      case Sexo => assert RequiredFields[1] == Sexo;
      case Conselho => assert RequiredFields[2] == Conselho;
      case TipoProfissional => assert RequiredFields[3] == TipoProfissional;
      case Banco => assert RequiredFields[4] == Banco;
      case Agencia => assert RequiredFields[5] == Agencia;
      case Conta => assert RequiredFields[6] == Conta;
      case Digito => assert RequiredFields[7] == Digito;
      case Pix =>
      case PixType => assert RequiredFields[8] == PixType;
      case EnderecoRua => assert RequiredFields[9] == EnderecoRua;
      case EnderecoNumero => assert RequiredFields[10] == EnderecoNumero;
      case EnderecoBairro => assert RequiredFields[11] == EnderecoBairro;
      case EnderecoCidade => assert RequiredFields[12] == EnderecoCidade;
      case EnderecoComplemento =>
      case Cep => assert RequiredFields[13] == Cep;
      case EstadoCivil => assert RequiredFields[15] == EstadoCivil;
      case Email => assert RequiredFields[16] == Email;
      case Celular => assert RequiredFields[14] == Celular;
      case Celular2 =>
    }
  }

  lemma VerdictText(f: FormData, t: TextField)
    ensures Verdict(f, Text(t)) == TextError(f, t)
  {
    RequiredFieldsAre(t);
  }

  lemma VerdictAttachment(f: FormData, s: FileField)
    ensures Verdict(f, Attachment(s)) == AttachmentError(f, s)
  {
  }

  /** The sequential checks leave on each key exactly the message
      `FieldError` names, and nothing on the other keys. */
  lemma VerdictByField(f: FormData, k: Field)
    ensures Verdict(f, k) == FieldError(f, k)
  {
    match k
    case Text(t) => VerdictText(f, t);
    case Attachment(s) => VerdictAttachment(f, s);
    case TermoPrivacidade =>
  }

  /** A text field is free of errors exactly when its own check passes. */
  lemma TextVerdict(f: FormData, t: TextField)
    ensures Text(t) !in ValidateForm(f) <==> TextError(f, t).None?
  {
  }

  /** A form the component accepts: every required text filled, the formats
      right, the pix key right for its type (or no key and no type is not
      possible, since the type is required), the attachments present where
      they are required and the declaration checked. */
  predicate Acceptable(f: FormData) {
    (forall t :: t in RequiredFields ==> TextOf(f, t) != "")
    && TextFieldsPass(f) && AttachmentsPass(f)
  }

  /** The format checks of the text fields and the pix key all pass. */
  predicate TextFieldsPass(f: FormData) {
    MatchesEmail(f.email)
    && |Digits(f.conselho)| == 9
    && |Digits(f.cep)| == 8
    && |Digits(f.celular)| == 11
    && (f.celular2 == "" || |Digits(f.celular2)| == 11)
    && PixError(f.pixType, f.pix).None?
  }

  /** Every attachment the form requires is there, and the declaration is checked. */
  predicate AttachmentsPass(f: FormData) {
    f.documentoNadaConsta.Some? && f.documentoResidencia.Some?
    && f.cadernetaVacina.Some? && f.foto.Some?
    && (f.estadoCivil == "solteiro" || f.anexoEstadoCivil.Some?)
    && (f.sexo == "homem" ==> f.certificadoReservista.Some?)
    && f.termoPrivacidade
  }

  /** The component finds no error exactly for the acceptable forms. */
  lemma NoErrorsIffAcceptable(f: FormData)
    ensures ValidateForm(f) == map[] <==> Acceptable(f)
  {
    if ValidateForm(f) == map[] {
      assert forall k :: FieldError(f, k).None? by {
        forall k ensures FieldError(f, k).None? {
          assert k !in ValidateForm(f);
        }
      }
      NoFieldErrorAcceptable(f);
    }
    if Acceptable(f) {
      forall k ensures k !in ValidateForm(f) {
        AcceptableNoFieldError(f, k);
      }
    }
  }

  lemma NoFieldErrorAcceptable(f: FormData)
    requires forall k :: FieldError(f, k).None?
    ensures Acceptable(f)
  {
    assert forall t :: TextError(f, t).None? by {
      forall t ensures TextError(f, t).None? { assert FieldError(f, Text(t)).None?; }
    }
    NoFieldErrorFilled(f);
    NoFieldErrorTextPasses(f, FieldError(f, Text(Email)), FieldError(f, Text(Conselho)),
      FieldError(f, Text(Cep)), FieldError(f, Text(Celular)), FieldError(f, Text(Celular2)),
      FieldError(f, Text(Pix)), FieldError(f, Text(PixType)));
    NoFieldErrorAttachments(f, FieldError(f, Text(EstadoCivil)),
      FieldError(f, Attachment(DocumentoNadaConsta)), FieldError(f, Attachment(DocumentoResidencia)),
      FieldError(f, Attachment(CadernetaVacina)), FieldError(f, Attachment(Foto)),
      FieldError(f, Attachment(AnexoEstadoCivil)), FieldError(f, Attachment(CertificadoReservista)),
      FieldError(f, TermoPrivacidade));
  }

  lemma NoFieldErrorFilled(f: FormData)
    requires forall t :: TextError(f, t).None?
    ensures forall t :: t in RequiredFields ==> TextOf(f, t) != ""
  {
    forall t | t in RequiredFields ensures TextOf(f, t) != "" {
      RequiredFieldsAre(t);
      if TextOf(f, t) == "" {
        EmptyRequiredFails(f, t);
      }
    }
  }

  /** An empty required text always draws an error. */
  lemma EmptyRequiredFails(f: FormData, t: TextField)
    requires !(t == Pix || t == EnderecoComplemento || t == Celular2) && TextOf(f, t) == ""
    ensures TextError(f, t).Some?
  {
    match t
    case Nome => case Sexo => case Conselho => case TipoProfissional => case Banco =>
    case Agencia => case Conta => case Digito => case PixType =>
    case EnderecoRua => case EnderecoNumero => case EnderecoBairro => case EnderecoCidade =>
    case Cep => case EstadoCivil => case Email =>
    case Celular => assert Digits(f.celular) == [];
  }

  lemma NoFieldErrorAttachments(f: FormData, estadoCivil: Option<string>, nadaConsta: Option<string>,
    residencia: Option<string>, vacina: Option<string>, foto: Option<string>,
    anexo: Option<string>, reservista: Option<string>, termo: Option<string>)
    requires estadoCivil == TextError(f, EstadoCivil) && estadoCivil.None?
    requires nadaConsta == AttachmentError(f, DocumentoNadaConsta) && nadaConsta.None?
    requires residencia == AttachmentError(f, DocumentoResidencia) && residencia.None?
    requires vacina == AttachmentError(f, CadernetaVacina) && vacina.None?
    requires foto == AttachmentError(f, Foto) && foto.None?
    requires anexo == AttachmentError(f, AnexoEstadoCivil) && anexo.None?
    requires reservista == AttachmentError(f, CertificadoReservista) && reservista.None?
    requires termo == FieldError(f, TermoPrivacidade) && termo.None?
    ensures AttachmentsPass(f)
  {
  }

  lemma NoFieldErrorTextPasses(f: FormData, email: Option<string>, conselho: Option<string>,
    cep: Option<string>, celular: Option<string>, celular2: Option<string>,
    pix: Option<string>, pixType: Option<string>)
    requires email == TextError(f, Email) && email.None?
    requires conselho == TextError(f, Conselho) && conselho.None?
    requires cep == TextError(f, Cep) && cep.None?
    requires celular == TextError(f, Celular) && celular.None?
    requires celular2 == TextError(f, Celular2) && celular2.None?
    requires pix == TextError(f, Pix) && pix.None?
    requires pixType == TextError(f, PixType) && pixType.None?
    ensures TextFieldsPass(f)
  {
  }

  lemma AcceptableNoFieldError(f: FormData, k: Field)
    requires Acceptable(f)
    ensures FieldError(f, k).None?
  {
    match k
    case Text(t) =>
      RequiredFieldsAre(t);
      if t in RequiredFields {
        assert TextOf(f, t) != "";
      }
    case Attachment(s) =>
    case TermoPrivacidade =>
  }

  // ---------------------------------------------------------------------
  // What the order of the checks decides.
  // ---------------------------------------------------------------------

  /** The mobile number is checked for its length even when empty, and that
      message replaces the required-field one: an empty mobile number is
      reported as invalid, not as missing. */
  lemma EmptyCelularReportedInvalid(f: FormData)
    requires f.celular == ""
    ensures Text(Celular) in ValidateForm(f) && ValidateForm(f)[Text(Celular)] == CelularInvalid
  {
  }

  /** A pix key typed with no key type selected is reported on the key type,
      with the select-a-type message, and the key itself carries no error;
      with neither, the key type is reported as required. */
  lemma PixWithoutType(f: FormData)
    requires f.pixType == ""
    ensures Text(PixType) in ValidateForm(f)
    ensures ValidateForm(f)[Text(PixType)] == if f.pix != "" then PixTypeMissing else Required
    ensures Text(Pix) !in ValidateForm(f)
  {
    assert FieldError(f, Text(PixType)) == Some(if f.pix != "" then PixTypeMissing else Required);
    assert FieldError(f, Text(Pix)) == None;
  }

  /** The marital-status attachment is asked for exactly when a status other
      than "solteiro" is chosen and no file is attached. */
  lemma AnexoRequiredWhen(f: FormData)
    ensures Attachment(AnexoEstadoCivil) in ValidateForm(f)
      <==> f.estadoCivil != "" && f.estadoCivil != "solteiro" && f.anexoEstadoCivil.None?
  {
  }

  /** The military-service certificate is asked for exactly when the sex is
      "homem" and no file is attached. */
  lemma ReservistaRequiredWhen(f: FormData)
    ensures Attachment(CertificadoReservista) in ValidateForm(f)
      <==> f.sexo == "homem" && f.certificadoReservista.None?
  {
  }

  /** A form that would be accepted as "solteiro" but declares "casado"
      without the attachment gets exactly one error, on the attachment. */
  lemma MarriedWithoutAttachment(f: FormData)
    requires Acceptable(f.(estadoCivil := "solteiro"))
    requires f.estadoCivil == "casado" && f.anexoEstadoCivil.None?
    ensures ValidateForm(f) == map[Attachment(AnexoEstadoCivil) := AnexoMissing]
  {
    forall k ensures (k in ValidateForm(f) <==> k == Attachment(AnexoEstadoCivil))
      && (k in ValidateForm(f) ==> ValidateForm(f)[k] == AnexoMissing)
    {
      MarriedFieldError(f, k);
    }
  }

  lemma MarriedFieldError(f: FormData, k: Field)
    requires Acceptable(f.(estadoCivil := "solteiro"))
    requires f.estadoCivil == "casado" && f.anexoEstadoCivil.None?
    ensures FieldError(f, k) == if k == Attachment(AnexoEstadoCivil) then Some(AnexoMissing) else None
  {
    var g := f.(estadoCivil := "solteiro");
    AcceptableNoFieldError(g, k);
    if k != Attachment(AnexoEstadoCivil) {
      assert FieldError(f, k) == FieldError(g, k) by {
        match k
        case Text(t) => assert TextOf(f, t) == TextOf(g, t) || t == EstadoCivil;
        case Attachment(s) =>
        case TermoPrivacidade =>
      }
    }
  }

  // ---------------------------------------------------------------------
  // What the input masks let through.
  // ---------------------------------------------------------------------

  /** A council number typed through its mask passes its check exactly when
      at least 9 digits were typed. */
  lemma MaskedConselhoPasses(f: FormData, raw: string)
    requires f.conselho == FormatCoren(raw)
    ensures Text(Conselho) !in ValidateForm(f) <==> |Digits(raw)| >= 9
  {
    TextVerdict(f, Conselho);
    CorenComplete(raw);
  }

  lemma CorenComplete(raw: string)
    ensures FormatCoren(raw) != "" && |Digits(FormatCoren(raw))| == 9 <==> |Digits(raw)| >= 9
  {
    CorenPromises(raw);
  }

  /** A postal code typed through its mask passes its check exactly when at
      least 8 digits were typed. */
  lemma MaskedCepPasses(f: FormData, raw: string)
    requires f.cep == FormatCep(raw)
    ensures Text(Cep) !in ValidateForm(f) <==> |Digits(raw)| >= 8
  {
    TextVerdict(f, Cep);
    CepComplete(raw);
  }

  lemma CepComplete(raw: string)
    ensures FormatCep(raw) != "" && |Digits(FormatCep(raw))| == 8 <==> |Digits(raw)| >= 8
  {
    CepPromises(raw);
  }

  /** A mobile number left by the change handler passes its check exactly
      when the backspace heuristic kept at least 11 digits of what was typed. */
  lemma MaskedCelularPasses(f: FormData, raw: string, prev: Option<string>)
    requires f.celular == FormatCelular(raw, prev)
    ensures Text(Celular) !in ValidateForm(f) <==> |CelularDigits(raw, prev)| >= 11
  {
    CelularVerdict(f);
    CelularComplete(raw, prev);
  }

  lemma CelularVerdict(f: FormData)
    ensures Text(Celular) !in ValidateForm(f) <==> |Digits(f.celular)| == 11
  {
    TextVerdict(f, Celular);
  }

  lemma CelularComplete(raw: string, prev: Option<string>)
    ensures |Digits(FormatCelular(raw, prev))| == 11 <==> |CelularDigits(raw, prev)| >= 11
  {
    CelularPromises(raw, prev);
  }

  /** The length of a random-key rendering of `n` hexadecimal digits. */
  lemma RandomPixLength(n: nat)
    ensures RenderLength(n, RandomPixMask) ==
      if n <= 8 then n else if n <= 12 then n + 1 else if n <= 16 then n + 2
      else if n <= 20 then n + 3 else if n <= 36 then n + 4 else 40
  {
    var m := RandomPixMask;
    assert m[1..][1..][1..][1..][1..] == [];
  }

  /** The random-key mask produces a textual UUID exactly when 32
      hexadecimal digits were typed; with 33 to 36 it produces a longer key
      that the UUID check then rejects. */
  lemma RandomPixIsUuid(v: string)
    ensures MatchesUuid(FormatRandomPix(v)) <==> |HexDigits(v)| == 32
  {
    var h := HexDigits(v);
    RandomPixRendersMask(v);
    RenderHasLength(h, RandomPixMask);
    RandomPixLength(|h|);
    if |h| == 32 {
      RandomPixUuidShape(v);
    }
  }

  lemma RandomPixUuidShape(v: string)
    requires |FormatRandomPix(v)| == 36
    ensures MatchesUuid(FormatRandomPix(v))
  {
    RandomPixPromises(v);
  }

  /** A random key typed through its mask passes its check exactly when 32
      hexadecimal digits were typed. */
  lemma MaskedRandomPixPasses(f: FormData, raw: string)
    requires f.pixType == "aleatoria" && f.pix == FormatRandomPix(raw)
    ensures Text(Pix) !in ValidateForm(f) <==> |HexDigits(raw)| == 32
  {
    RandomPixIsUuid(raw);
    assert FieldError(f, Text(Pix)) == if MatchesUuid(f.pix) then None else Some(PixRandomInvalid);
  }
}
