/**
 The context and file-name builders of the contract and invoice generators. The clock, the
 allocated contract number, the template files and the success of saving are parameters;
 the rendering itself is `Rendering.FillTemplate`.
 */
module Generation {
  import opened Options
  import opened Strings
  import opened Formatters
  import opened Rendering
  import Registry

  /** The client fields the generators read, all as text. */
  datatype Client = Client(
    surname: String, name: String, patronymic: String,
    car: String, vin: String, address: String, index: String,
    passport: String, issuedBy: String, issueDate: String, depCode: String, birthDate: String,
    phone: String,
    /** The optional pre-formatted phone pair `Телефон_формат`. */
    phoneFormatted: Option<(String, String)>,
    /** The optional folder creation date `Дата создания папки`. */
    folderCreated: Option<String>)

  const CompanyName: String := "ИП Петров П.П."
  const AppName: String := "AutoContractManager"
  const CurrencySymbol: String := "₽"

  /** What a generator ends with: an exception, `False`, or the file written. */
  datatype Outcome = Raised | Failed | Written(fileName: String, document: Document)

  function FullName(c: Client): String {
    c.surname + " " + c.name + " " + c.patronymic
  }

  /** `NUM`: the contract number with every `-ИП` removed; nothing new is added. */
  function NumberPart(contractNum: String): (r: String)
    ensures forall i :: 0 <= i < |r| ==> r[i] in contractNum
  {
    ReplaceAllFrom(contractNum, Registry.Suffix, []);
    ReplaceAll(contractNum, Registry.Suffix, [])
  }

  /** For a number the registry hands out, `NUM` is its decimal digits and `FULL_NUM` reads back as it. */
  lemma AllocatedNumberParts(n: nat)
    ensures NumberPart(Registry.FormatContractNumber(n)) == NatToDecimal(n)
    ensures ParseInt(NumberPart(Registry.FormatContractNumber(n))) == Some(n)
    ensures Registry.ParseContractNumber(Registry.Text(Registry.FormatContractNumber(n))) == Some(n)
  {
    var d := NatToDecimal(n);
    assert Registry.FormatContractNumber(n) == d + Registry.Suffix;
    forall i | 0 <= i < |d| ensures d[i] != Registry.Suffix[0] {
      assert IsDigit(d[i]);
    }
    ReplaceTrailingSuffix(d, Registry.Suffix);
    ParseIntOfDecimal(n);
    Registry.ContractNumberRoundTrip(n);
  }

  /* ---------------------------------------------------------------- contract */

  /**
   `SHORT_FIO`: the surname, then the first letters of the first name and the patronymic,
   each followed by a dot. Taking the first letter of an empty field raises, shown as `None`.
   */
  function ShortFio(c: Client): (r: Option<String>)
    ensures r.Some? <==> |c.name| > 0 && |c.patronymic| > 0
    ensures r.Some? ==> |r.value| == |c.surname| + 6
    ensures r.Some? ==> r.value[..|c.surname|] == c.surname
    ensures r.Some? ==> r.value[|c.surname|..] == [' ', c.name[0], '.', ' ', c.patronymic[0], '.']
  {
    if |c.name| == 0 || |c.patronymic| == 0 then None
    else Some(c.surname + " " + [c.name[0]] + ". " + [c.patronymic[0]] + ".")
  }

  /** `PHONE`: the stored formatted phone when there is a non-empty one, else the phone formatted now. */
  function ContractPhone(c: Client): (p: String)
    ensures c.phoneFormatted.Some? && |c.phoneFormatted.value.0| > 0 ==> p == c.phoneFormatted.value.0
    ensures !(c.phoneFormatted.Some? && |c.phoneFormatted.value.0| > 0) ==>
      IsPhoneLayout(p) && Digits(p) == PhoneDigits(c.phone)
  {
    if c.phoneFormatted.Some? && |c.phoneFormatted.value.0| > 0 then c.phoneFormatted.value.0
    else FormatPhone(c.phone).0
  }

  /** A stored pair made by the formatter gives the same `PHONE` as formatting on the spot. */
  lemma StoredPhoneAgrees(c: Client)
    requires c.phoneFormatted == Some(FormatPhone(c.phone))
    ensures ContractPhone(c) == ContractPhone(c.(phoneFormatted := None))
  {
  }

  /** Formatting an already formatted phone keeps it, so `PHONE` of such a client is its phone. */
  lemma FormattedPhoneKept(c: Client, raw: String)
    requires c.phoneFormatted.None? && c.phone == FormatPhone(raw).0
    ensures ContractPhone(c) == c.phone
  {
    FormatPhoneFixpoint(raw);
  }

  const ContractKeys: seq<String> := [
    "NUM", "FULL_NUM", "DATE", "FIO", "FULL_FIO", "SHORT_FIO", "CAR", "VIN", "CAR_INFO",
    "ADDRESS", "INDEX", "PASSPORT", "ISSUED_BY", "ISSUE_DATE", "DEP_CODE", "BIRTH_DATE",
    "PHONE", "COMPANY", "APP_NAME"
  ]

  /** The values `generate_contract` puts into its context. */
  datatype ContractFields = ContractFields(
    num: String, fullNum: String, date: String, fio: String, shortFio: String,
    car: String, vin: String, carInfo: String, address: String, index: String,
    passport: String, issuedBy: String, issueDate: String, depCode: String, birthDate: String,
    phone: String)

  /** The contract values, or `None` where computing them raises. */
  function ContractFieldsOf(c: Client, contractNum: String, today: String): (r: Option<ContractFields>)
    ensures r.Some? <==> |c.name| > 0 && |c.patronymic| > 0
    ensures r.Some? ==> r.value.num == NumberPart(contractNum) && r.value.fullNum == contractNum
    ensures r.Some? ==> r.value.fio == FullName(c) && r.value.shortFio == ShortFio(c).value
    ensures r.Some? ==> r.value.carInfo == c.car + " (VIN " + c.vin + ")" && r.value.phone == ContractPhone(c)
    ensures r.Some? ==> r.value.date == today && r.value.car == c.car && r.value.vin == c.vin
    ensures r.Some? ==> r.value.address == c.address && r.value.index == c.index
    ensures r.Some? ==> r.value.passport == c.passport && r.value.issuedBy == c.issuedBy
    ensures r.Some? ==> r.value.issueDate == c.issueDate && r.value.depCode == c.depCode
    ensures r.Some? ==> r.value.birthDate == c.birthDate
  {
    match ShortFio(c)
    case None => None
    case Some(shortFio) =>
      Some(ContractFields(
        NumberPart(contractNum), contractNum, today, FullName(c), shortFio,
        c.car, c.vin, c.car + " (VIN " + c.vin + ")", c.address, c.index,
        c.passport, c.issuedBy, c.issueDate, c.depCode, c.birthDate, ContractPhone(c)))
  }

  /** The contract context: every key with its value, `FIO` and `FULL_FIO` both the full name. */
  function ContractContextOf(f: ContractFields): (ctx: Context)
    ensures |ctx| == |ContractKeys| && forall i :: 0 <= i < |ctx| ==> ctx[i].0 == ContractKeys[i]
    ensures forall i :: 0 <= i < |ctx| ==> ctx[i].1 == ContractValues(f)[i]
  {
    Zip(ContractKeys, ContractValues(f))
  }

  /** The contract values in the order of the contract keys. */
  function ContractValues(f: ContractFields): (vs: seq<String>)
    ensures |vs| == |ContractKeys|
  {
    [
      f.num, f.fullNum, f.date, f.fio, f.fio,                     // NUM, FULL_NUM, DATE, FIO, FULL_FIO
      f.shortFio, f.car, f.vin, f.carInfo,                        // SHORT_FIO, CAR, VIN, CAR_INFO
      f.address, f.index, f.passport, f.issuedBy,                 // ADDRESS, INDEX, PASSPORT, ISSUED_BY
      f.issueDate, f.depCode, f.birthDate,                        // ISSUE_DATE, DEP_CODE, BIRTH_DATE
      f.phone, CompanyName, AppName                               // PHONE, COMPANY, APP_NAME
    ]
  }

  /** Where the contract values sit: `FIO` and `FULL_FIO` both carry the full name. */
  lemma ContractContextValues(f: ContractFields)
    ensures var ctx := ContractContextOf(f);
      && ctx[0].1 == f.num && ctx[1].1 == f.fullNum && ctx[2].1 == f.date
      && ctx[3].1 == f.fio && ctx[4].1 == f.fio && ctx[5].1 == f.shortFio
      && ctx[6].1 == f.car && ctx[7].1 == f.vin && ctx[8].1 == f.carInfo
  {
  }

  /** Where the client's address and documents sit, then the phone and the fixed names. */
  lemma ContractContextDetails(f: ContractFields)
    ensures var ctx := ContractContextOf(f);
      && ctx[9].1 == f.address && ctx[10].1 == f.index && ctx[11].1 == f.passport
      && ctx[12].1 == f.issuedBy && ctx[13].1 == f.issueDate && ctx[14].1 == f.depCode
      && ctx[15].1 == f.birthDate && ctx[16].1 == f.phone
      && ctx[17].1 == CompanyName && ctx[18].1 == AppName
  {
  }

  /** The context of `generate_contract`, or `None` where building it raises. */
  function ContractContext(c: Client, contractNum: String, today: String): (r: Option<Context>)
    ensures r.Some? <==> |c.name| > 0 && |c.patronymic| > 0
    ensures r.Some? ==> |r.value| == |ContractKeys|
    ensures r.Some? ==> forall i :: 0 <= i < |r.value| ==> r.value[i].0 == ContractKeys[i]
  {
    match ContractFieldsOf(c, contractNum, today)
    case None => None
    case Some(f) => Some(ContractContextOf(f))
  }

  /** The client's own fields reach the contract context unchanged, each under its key. */
  lemma ContractContextOfClient(c: Client, contractNum: String, today: String)
    requires |c.name| > 0 && |c.patronymic| > 0
    ensures var ctx := ContractContext(c, contractNum, today).value;
      && ctx[2] == ("DATE", today) && ctx[6] == ("CAR", c.car) && ctx[7] == ("VIN", c.vin)
      && ctx[9] == ("ADDRESS", c.address) && ctx[10] == ("INDEX", c.index)
      && ctx[11] == ("PASSPORT", c.passport) && ctx[12] == ("ISSUED_BY", c.issuedBy)
      && ctx[13] == ("ISSUE_DATE", c.issueDate) && ctx[14] == ("DEP_CODE", c.depCode)
      && ctx[15] == ("BIRTH_DATE", c.birthDate)
  {
    var f := ContractFieldsOf(c, contractNum, today).value;
    ContractContextValues(f);
    ContractContextDetails(f);
  }

  /** The index as it goes into the file name: `ИНДЕКС` when it holds a `*`. */
  function SafeIndex(index: String): (r: String)
    ensures '*' !in r
    ensures '*' !in index ==> r == index
  {
    if '*' in index then "ИНДЕКС" else index
  }

  /**
   `Договор №{num} ({sanitised full name})_{index}.docx`: the number follows `Договор №`
   unchanged, and a `*` can come only from the number, since the name is sanitised and the
   index is replaced when it holds one.
   */
  function ContractFileName(c: Client, contractNum: String): (f: String)
    ensures StartsWith(f, "Договор №" + contractNum + " (") && |f| >= 5 && f[|f| - 5..] == ".docx"
    ensures '*' in f <==> '*' in contractNum
  {
    var fio := SanitizeFilename(FullName(c));
    var index := SafeIndex(c.index);
    SanitizedStarFree(fio);
    ContractNameParts(contractNum, fio, index);
    "Договор №" + contractNum + " (" + fio + ")_" + index + ".docx"
  }

  /** A sanitised text holds no `*`, which is a forbidden file-name character. */
  lemma SanitizedStarFree(s: String)
    requires IsSanitized(s)
    ensures '*' !in s
  {
    forall i | 0 <= i < |s| ensures s[i] != '*' {
      assert !IsIllegalFileChar(s[i]);
    }
  }

  /** The layout of the contract file name around its number, for any name and index free of `*`. */
  lemma ContractNameParts(num: String, fio: String, index: String)
    requires '*' !in fio && '*' !in index
    ensures var f := "Договор №" + num + " (" + fio + ")_" + index + ".docx";
      StartsWith(f, "Договор №" + num + " (") && |f| >= 5 && f[|f| - 5..] == ".docx"
      && ('*' in f <==> '*' in num)
  {
    var head := "Договор №" + num + " (";
    var f := head + fio + ")_" + index + ".docx";
    assert f[..|head|] == head;
    assert f[|f| - 5..] == ".docx";
    assert '*' !in "Договор №" && '*' !in " (" && '*' !in ")_" && '*' !in ".docx";
    if '*' in num {
      var k :| 0 <= k < |num| && num[k] == '*';
      assert f[|"Договор №"| + k] == '*';
    }
  }

  /**
   `generate_contract`: take the next number from the registry, build the context (raising on
   an empty first name or patronymic), then fill the template under the contract file name.
   */
  function GenerateContract(c: Client, registry: Registry.Sheet, today: String,
                            template: Option<Document>, saved: bool): (r: Outcome)
    ensures r.Raised? <==> ShortFio(c).None?
    ensures r.Written? <==> ShortFio(c).Some? && template.Some? && saved
    ensures r.Written? ==> r.fileName == ContractFileName(c, Registry.NextContractNumber(registry))
    ensures r.Written? ==>
      r.document == FillDocument(template.value, ContractContext(c, Registry.NextContractNumber(registry), today).value)
  {
    var contractNum := Registry.NextContractNumber(registry);
    match ContractContext(c, contractNum, today)
    case None => Raised
    case Some(ctx) =>
      match FillTemplate(template, ctx, saved)
      case None => Failed
      case Some(doc) => Written(ContractFileName(c, contractNum), doc)
  }

  /** The number in a written contract's file name reads back above every number already in the registry. */
  lemma ContractNumberIsFresh(c: Client, registry: Registry.Sheet, today: String,
                              template: Option<Document>, saved: bool)
    requires GenerateContract(c, registry, today, template, saved).Written?
    ensures var num := Registry.NextContractNumber(registry);
      && StartsWith(GenerateContract(c, registry, today, template, saved).fileName, "Договор №" + num + " (")
      && Registry.ParseContractNumber(Registry.Text(num)).Some?
      && Registry.ParseContractNumber(Registry.Text(num)).value >= 1
      && (Registry.Lookup(registry, Registry.ContractNumberColumn).Some? ==>
            var col := Registry.Lookup(registry, Registry.ContractNumberColumn).value;
            forall i :: 0 <= i < |col| && Registry.ParseContractNumber(col[i]).Some? ==>
              Registry.ParseContractNumber(col[i]).value < Registry.ParseContractNumber(Registry.Text(num)).value)
  {
  }

  /* ---------------------------------------------------------------- invoice */

  /** The service wording; unknown services fall back to `услуге`. */
  function ServiceDescription(service: String): (r: String)
    ensures r == "выпуску СБКТС + ЭПТС" <==> service == "sbkts"
    ensures r == "списанию утильсбора" <==> service == "scrap"
    ensures service != "sbkts" && service != "scrap" ==> r == "услуге"
  {
    if service == "sbkts" then "выпуску СБКТС + ЭПТС"
    else if service == "scrap" then "списанию утильсбора"
    else "услуге"
  }

  datatype InvoiceTemplate = AccountTemplate | CardTemplate

  /** Payment by card selects the card template and its label; anything else the account template. */
  function PaymentTemplate(payment: String): (t: InvoiceTemplate)
    ensures t == CardTemplate <==> payment == "card"
  {
    if payment == "card" then CardTemplate else AccountTemplate
  }

  /** The label as it goes into the file name, with its surrounding spaces. */
  function PaymentLabel(payment: String): (tag: String)
    ensures payment == "card" ==> Strip(tag) == "НА КАРТУ"
    ensures payment != "card" ==> tag == []
  {
    if payment == "card" then
      assert Strip(" НА КАРТУ ") == Strip("НА КАРТУ ");
      assert Strip("НА КАРТУ ") == TrimEnd("НА КАРТУ ");
      " НА КАРТУ "
    else []
  }

  /** `METHOD_LABEL`: the label without its surrounding spaces. */
  function MethodLabel(payment: String): (r: String)
    ensures r == (if payment == "card" then "НА КАРТУ" else [])
  {
    assert Strip([]) == [];
    Strip(PaymentLabel(payment))
  }

  /**
   `AMOUNT_TEXT`: the thousands in words, capitalised, followed by `тысяч`. Only amounts from
   10000 to 99999 are spelled; every other amount gets the out-of-range text.
   */
  function AmountText(amount: int): (r: String)
    ensures r != Capitalize(OutOfRange) + " тысяч" <==> 10000 <= amount <= 99999
  {
    var t := amount / 1000;
    assert |Capitalize(OutOfRange)| == 19;
    assert 10 <= t <= 99 ==> |Capitalize(NumberToWords(t))| <= 18;
    Capitalize(NumberToWords(t)) + " тысяч"
  }

  /** `VERBOSE_DATE`: the locale-formatted date with every digit zero replaced by the letter `о`. */
  function VerboseInvoiceDate(strftimeText: String): (r: String)
    ensures '0' !in r
  {
    ZeroFreeReplacement(strftimeText);
    ReplaceAll(strftimeText, "0", "о")
  }

  lemma {:induction false} ZeroFreeReplacement(s: String)
    ensures '0' !in ReplaceAll(s, "0", "о")
    decreases |s|
  {
    if |s| > 0 {
      if StartsWith(s, "0") {
        ZeroFreeReplacement(s[1..]);
      } else {
        ZeroFreeReplacement(s[1..]);
        assert s[0] != '0';
      }
    }
  }

  /** A date written without zeros is kept as it is. */
  lemma VerboseDateWithoutZero(s: String)
    requires '0' !in s
    ensures VerboseInvoiceDate(s) == s
  {
    ContainsChar(s, '0');
    ReplaceAbsent(s, "0", "о");
  }

  const InvoiceKeys: seq<String> := [
    "NUM", "FULL_NUM", "DATE", "VERBOSE_DATE", "FIO", "ADDRESS", "AMOUNT", "AMOUNT_RUB",
    "AMOUNT_TEXT", "SERVICE", "CAR_INFO", "INDEX", "CONTRACT_REF", "METHOD_LABEL", "COMPANY",
    "INN", "BANK_ACCOUNT", "BANK_NAME", "BANK_BIC", "CORR_ACCOUNT"
  ]

  /** `{contract number} от {folder date}`, with a blank date pattern when the client has none. */
  function ContractRef(c: Client, contractNum: String): (r: String)
    ensures StartsWith(r, contractNum + " от ")
    ensures c.folderCreated.Some? ==> r[|contractNum| + 4..] == c.folderCreated.value
    ensures c.folderCreated.None? ==> r[|contractNum| + 4..] == "__.__.____"
  {
    var head := contractNum + " от ";
    var date := if c.folderCreated.Some? then c.folderCreated.value else "__.__.____";
    assert (head + date)[..|head|] == head && (head + date)[|head|..] == date;
    head + date
  }

  /** The values `generate_invoice` puts into its context besides the fixed company details. */
  datatype InvoiceFields = InvoiceFields(
    num: String, fullNum: String, date: String, verboseDate: String, fio: String, address: String,
    amount: String, amountRub: String, amountText: String, service: String, carInfo: String,
    index: String, contractRef: String, methodLabel: String)

  function InvoiceFieldsOf(c: Client, contractNum: String, service: String, amount: int,
                           payment: String, today: String, strftimeText: String): (f: InvoiceFields)
    ensures f.num == NumberPart(contractNum) && f.fullNum == contractNum + "-001"
    ensures f.amount == IntToString(amount) && f.amountRub == IntToString(amount) + " " + CurrencySymbol
    ensures f.amountText == AmountText(amount) && f.service == ServiceDescription(service)
    ensures f.methodLabel == (if payment == "card" then "НА КАРТУ" else [])
    ensures '0' !in f.verboseDate
    ensures f.contractRef == ContractRef(c, contractNum)
    ensures f.verboseDate == VerboseInvoiceDate(strftimeText)
    ensures f.date == today && f.fio == FullName(c) && f.address == c.address && f.index == c.index
    ensures f.carInfo == c.car + "_vin " + c.vin
  {
    InvoiceFields(
      NumberPart(contractNum), contractNum + "-001", today, VerboseInvoiceDate(strftimeText), FullName(c),
      c.address, IntToString(amount), IntToString(amount) + " " + CurrencySymbol, AmountText(amount),
      ServiceDescription(service), c.car + "_vin " + c.vin, c.index, ContractRef(c, contractNum),
      MethodLabel(payment))
  }

  /** The invoice context: the values in key order, then the fixed company and bank details. */
  function InvoiceContextOf(f: InvoiceFields): (ctx: Context)
    ensures |ctx| == |InvoiceKeys| && forall i :: 0 <= i < |ctx| ==> ctx[i].0 == InvoiceKeys[i]
    ensures forall i :: 0 <= i < |ctx| ==> ctx[i].1 == InvoiceValues(f)[i]
  {
    Zip(InvoiceKeys, InvoiceValues(f))
  }

  /** The invoice values in the order of the invoice keys. */
  function InvoiceValues(f: InvoiceFields): (vs: seq<String>)
    ensures |vs| == |InvoiceKeys|
  {
    [
      f.num, f.fullNum, f.date, f.verboseDate,                    // NUM, FULL_NUM, DATE, VERBOSE_DATE
      f.fio, f.address, f.amount, f.amountRub,                    // FIO, ADDRESS, AMOUNT, AMOUNT_RUB
      f.amountText, f.service, f.carInfo, f.index,                // AMOUNT_TEXT, SERVICE, CAR_INFO, INDEX
      f.contractRef, f.methodLabel, CompanyName,                  // CONTRACT_REF, METHOD_LABEL, COMPANY
      "123456789012", "40817810123456789012", "Сбербанк",         // INN, BANK_ACCOUNT, BANK_NAME
      "044525225", "30101810400000000225"                         // BANK_BIC, CORR_ACCOUNT
    ]
  }

  /** Where the invoice values sit, up to the contract reference and the method label. */
  lemma InvoiceContextValues(f: InvoiceFields)
    ensures var ctx := InvoiceContextOf(f);
      && ctx[0].1 == f.num && ctx[1].1 == f.fullNum && ctx[2].1 == f.date && ctx[3].1 == f.verboseDate
      && ctx[4].1 == f.fio && ctx[5].1 == f.address && ctx[6].1 == f.amount && ctx[7].1 == f.amountRub
      && ctx[8].1 == f.amountText && ctx[9].1 == f.service && ctx[10].1 == f.carInfo
      && ctx[11].1 == f.index && ctx[12].1 == f.contractRef && ctx[13].1 == f.methodLabel
  {
  }

  /** The fixed company and bank details at the end of the invoice context. */
  lemma InvoiceContextDetails(f: InvoiceFields)
    ensures var ctx := InvoiceContextOf(f);
      && ctx[14].1 == CompanyName && ctx[15].1 == "123456789012"
      && ctx[16].1 == "40817810123456789012" && ctx[17].1 == "Сбербанк"
      && ctx[18].1 == "044525225" && ctx[19].1 == "30101810400000000225"
  {
  }

  /** The context of `generate_invoice`. */
  function InvoiceContext(c: Client, contractNum: String, service: String, amount: int,
                          payment: String, today: String, strftimeText: String): (ctx: Context)
    ensures |ctx| == |InvoiceKeys|
    ensures forall i :: 0 <= i < |ctx| ==> ctx[i].0 == InvoiceKeys[i]
  {
    InvoiceContextOf(InvoiceFieldsOf(c, contractNum, service, amount, payment, today, strftimeText))
  }

  /** The client's own fields reach the invoice context unchanged, each under its key. */
  lemma InvoiceContextOfClient(c: Client, contractNum: String, service: String, amount: int,
                               payment: String, today: String, strftimeText: String)
    ensures var ctx := InvoiceContext(c, contractNum, service, amount, payment, today, strftimeText);
      && ctx[2] == ("DATE", today) && ctx[4] == ("FIO", FullName(c)) && ctx[5] == ("ADDRESS", c.address)
      && ctx[10] == ("CAR_INFO", c.car + "_vin " + c.vin) && ctx[11] == ("INDEX", c.index)
  {
    InvoiceContextValues(InvoiceFieldsOf(c, contractNum, service, amount, payment, today, strftimeText));
  }

  /** The amount, the amount with the currency, and the contract reference reach the invoice context. */
  lemma InvoiceContextAmounts(c: Client, contractNum: String, service: String, amount: int,
                              payment: String, today: String, strftimeText: String)
    ensures var ctx := InvoiceContext(c, contractNum, service, amount, payment, today, strftimeText);
      && ctx[6] == ("AMOUNT", IntToString(amount))
      && ctx[7] == ("AMOUNT_RUB", IntToString(amount) + " " + CurrencySymbol)
      && ctx[12] == ("CONTRACT_REF", ContractRef(c, contractNum))
  {
    InvoiceContextValues(InvoiceFieldsOf(c, contractNum, service, amount, payment, today, strftimeText));
  }

  /** `Счёт{label}№ {FULL_NUM}`: the start of the invoice file name. */
  function InvoiceNameHead(contractNum: String, payment: String): String {
    "Счёт" + PaymentLabel(payment) + "№ " + contractNum + "-001"
  }

  /** ` от {DATE} для {safe_fio}_{INDEX}`: the part of the invoice file name between the number and `.docx`. */
  function InvoiceNameMiddle(c: Client, today: String): String {
    " от " + today + " для " + SanitizeFilename(FullName(c)) + "_" + c.index
  }

  /** The invoice file name, sanitised as a whole after the full name was sanitised on its own. */
  function InvoiceFileName(c: Client, contractNum: String, payment: String, today: String): (f: String)
    ensures IsSanitized(f)
    ensures SanitizeFilename(f) == f
  {
    var raw := InvoiceNameHead(contractNum, payment) + InvoiceNameMiddle(c, today) + ".docx";
    SanitizeIdempotent(raw);
    SanitizeFilename(raw)
  }

  /** A contract number fit for a file name as it is: no forbidden character, no whitespace. */
  predicate PlainNumber(s: String) {
    forall i :: 0 <= i < |s| ==> !IsIllegalFileChar(s[i]) && !IsSpace(s[i])
  }

  /** A text that starts a sanitised name: single-spaced, allowed characters only, `С` first. */
  predicate LeadText(lead: String) {
    && SingleSpaced(lead) && |lead| > 0 && lead[0] == 'С'
    && forall i :: 0 <= i < |lead| ==> !IsIllegalFileChar(lead[i])
  }

  /** A non-empty word without whitespace. */
  predicate Word(a: String) {
    |a| > 0 && forall i :: 0 <= i < |a| ==> !IsSpace(a[i])
  }

  /** A word, a space, then a single-spaced text not starting with whitespace. */
  lemma JoinWordSingleSpaced(a: String, b: String)
    requires Word(a) && SingleSpaced(b) && (|b| == 0 || !IsSpace(b[0]))
    ensures SingleSpaced(a + " " + b)
  {
    ConsSingleSpaced(' ', b);
    assert " " + b == [' '] + b;
    SingleSpacedConcat(a, " " + b);
    assert a + " " + b == a + (" " + b);
  }

  lemma CardLeadWords()
    ensures Word("Счёт") && Word("НА") && Word("КАРТУ") && Word("№")
  {
  }

  lemma CardLeadSpaced()
    ensures SingleSpaced("Счёт НА КАРТУ № ")
  {
    CardLeadWords();
    JoinWordSingleSpaced("№", "");
    assert "№" + " " + "" == "№ ";
    JoinWordSingleSpaced("КАРТУ", "№ ");
    assert "КАРТУ" + " " + "№ " == "КАРТУ № ";
    JoinWordSingleSpaced("НА", "КАРТУ № ");
    assert "НА" + " " + "КАРТУ № " == "НА КАРТУ № ";
    JoinWordSingleSpaced("Счёт", "НА КАРТУ № ");
    assert "Счёт" + " " + "НА КАРТУ № " == "Счёт НА КАРТУ № ";
  }

  lemma CardLeadText()
    ensures LeadText("Счёт НА КАРТУ № ")
  {
    CardLeadSpaced();
  }

  lemma AccountLeadText()
    ensures LeadText("Счёт№ ")
  {
    assert Word("Счёт№");
    JoinWordSingleSpaced("Счёт№", "");
    assert "Счёт№" + " " + "" == "Счёт№ ";
  }

  /** `Счёт{label}№ ` is a lead text for either payment method. */
  lemma InvoiceLeadSanitized(payment: String)
    ensures LeadText("Счёт" + PaymentLabel(payment) + "№ ")
  {
    if payment == "card" {
      CardLeadText();
      assert "Счёт" + PaymentLabel(payment) + "№ " == "Счёт НА КАРТУ № ";
    } else {
      AccountLeadText();
      assert "Счёт" + PaymentLabel(payment) + "№ " == "Счёт№ ";
    }
  }

  /** A plain number followed by `-001` holds no whitespace and no forbidden character. */
  lemma FullNumberPlain(contractNum: String)
    requires PlainNumber(contractNum)
    ensures PlainNumber(contractNum + "-001") && SingleSpaced(contractNum + "-001")
  {
    var num := contractNum + "-001";
    forall i | 0 <= i < |num| ensures !IsIllegalFileChar(num[i]) && !IsSpace(num[i]) {
      if i >= |contractNum| {
        assert num[i] == "-001"[i - |contractNum|];
      }
    }
  }

  /** The invoice name up to its number, `Счёт{label}№ {FULL_NUM}`, is already a sanitised text. */
  lemma InvoiceHeadSanitized(contractNum: String, payment: String)
    requires PlainNumber(contractNum)
    ensures IsSanitized(InvoiceNameHead(contractNum, payment))
  {
    var lead := "Счёт" + PaymentLabel(payment) + "№ ";
    var num := contractNum + "-001";
    InvoiceLeadSanitized(payment);
    FullNumberPlain(contractNum);
    SingleSpacedConcat(lead, num);
    var h := lead + num;
    assert h == InvoiceNameHead(contractNum, payment);
    assert h[0] == 'С' && h[|h| - 1] == '1';
    forall i | 0 <= i < |h| ensures !IsIllegalFileChar(h[i]) {
      if i >= |lead| {
        assert h[i] == num[i - |lead|];
      }
    }
  }

  /**
   The invoice file name keeps `Счёт`, the payment label, `№ ` and the full invoice number
   `{contract number}-001` at its start and `.docx` at its end, when the contract number is
   plain; only the date, name and index in between are sanitised.
   */
  lemma InvoiceFileNameShape(c: Client, contractNum: String, payment: String, today: String)
    requires PlainNumber(contractNum)
    ensures InvoiceFileName(c, contractNum, payment, today) ==
      "Счёт" + PaymentLabel(payment) + "№ " + contractNum + "-001"
      + CollapseSpaces(ReplaceIllegal(" от " + today + " для " + SanitizeFilename(FullName(c)) + "_" + c.index))
      + ".docx"
  {
    InvoiceFileNameFrame(c, contractNum, payment, today);
  }

  /** InvoiceFileNameShape in terms of the head and middle parts of the raw name. */
  lemma InvoiceFileNameFrame(c: Client, contractNum: String, payment: String, today: String)
    requires PlainNumber(contractNum)
    ensures InvoiceFileName(c, contractNum, payment, today) ==
      InvoiceNameHead(contractNum, payment) + CollapseSpaces(ReplaceIllegal(InvoiceNameMiddle(c, today))) + ".docx"
  {
    InvoiceHeadSanitized(contractNum, payment);
    assert IsSanitized(".docx");
    SanitizeKeepsFrame(InvoiceNameHead(contractNum, payment), InvoiceNameMiddle(c, today), ".docx");
  }

  /**
   `generate_invoice`: card payments render the card template, others the account template,
   under the sanitised invoice file name.
   */
  function GenerateInvoice(c: Client, contractNum: String, service: String, amount: int, payment: String,
                           today: String, strftimeText: String,
                           accountTemplate: Option<Document>, cardTemplate: Option<Document>,
                           saved: bool): (r: Outcome)
    ensures !r.Raised?
    ensures r.Written? <==> saved && (if payment == "card" then cardTemplate.Some? else accountTemplate.Some?)
    ensures r.Written? ==> r.fileName == InvoiceFileName(c, contractNum, payment, today) && IsSanitized(r.fileName)
    ensures r.Written? ==> r.document == FillDocument(
      if payment == "card" then cardTemplate.value else accountTemplate.value,
      InvoiceContext(c, contractNum, service, amount, payment, today, strftimeText))
  {
    var template := if PaymentTemplate(payment) == CardTemplate then cardTemplate else accountTemplate;
    var ctx := InvoiceContext(c, contractNum, service, amount, payment, today, strftimeText);
    match FillTemplate(template, ctx, saved)
    case None => Failed
    case Some(doc) => Written(InvoiceFileName(c, contractNum, payment, today), doc)
  }

  /** The invoice number continues the contract number: `NUM` is shared and `FULL_NUM` adds `-001`. */
  lemma InvoiceNumbersFollowContract(c: Client, n: nat, service: String, amount: int, payment: String,
                                     today: String, strftimeText: String)
    requires |c.name| > 0 && |c.patronymic| > 0
    ensures var num := Registry.FormatContractNumber(n);
      var inv := InvoiceFieldsOf(c, num, service, amount, payment, today, strftimeText);
      var con := ContractFieldsOf(c, num, today).value;
      && inv.num == con.num == NatToDecimal(n)
      && inv.fullNum == con.fullNum + "-001"
  {
    AllocatedNumberParts(n);
  }
}
