/**
 The four forms: add a contract, edit a contract, renew a contract and add a
 customer. Each has a schema that turns the raw form values into a valid
 record or a list of issues, and a submit step that builds what goes to the
 data service.

 The schemas follow the parse order of the validation library the forms use:
 fields are checked in declaration order and every failing field reports an
 issue; a failed length or sign check only marks the result invalid, while a
 missing date, an unknown enumeration literal or a non-numeric amount aborts
 the object, and then the cross-field checks after it do not run at all.
 */
module Forms {
  import opened Common
  import opened Types
  import Store
  import Classifier
  import Text

  datatype Issue =
    | CustomerIdMissing
    | InvalidType
    | NameTooShort
    | StartDateMissing
    | EndDateMissing
    | RenewalDateMissing
    | AmountNotANumber
    | AmountNotPositive
    | InvalidStatus
    | EndNotAfterStart
    | RenewalAfterEnd
    | ContactPersonTooShort
    | InvalidEmail
    | PhoneTooShort
    | AddressTooShort
    | InvalidCustomerStatus

  /** What a schema hands back: the parsed values, or every issue it found. */
  datatype Validation<T> = Valid(value: T) | Invalid(issues: seq<Issue>)

  /** The result is rejected, and `issue` is among the reasons given. */
  predicate Rejects<T>(r: Validation<T>, issue: Issue) {
    r.Invalid? && issue in r.issues
  }

  /** One check: no issue when it passes, the one issue when it fails. */
  function Check(ok: bool, issue: Issue): (r: seq<Issue>)
    ensures issue in r <==> !ok
    ensures |r| <= 1
    ensures forall x :: x in r ==> x == issue
  {
    if ok then [] else [issue]
  }

  const ContractNameMinLength := 2
  const CustomerIdMinLength := 1
  const CustomerNameMinLength := 2
  const ContactPersonMinLength := 2
  const PhoneMinLength := 5
  const AddressMinLength := 5

  // ---------------------------------------------------------------------
  // Contract fields shared by the add and edit forms

  /** The raw values of the contract fields. Enumerations arrive as strings;
      an unpicked date is None; an amount that is not a number is None. */
  datatype ContractFields = ContractFields(
    kind: string,
    name: string,
    startDate: Option<Day>,
    endDate: Option<Day>,
    renewalDate: Option<Day>,
    amount: Option<Cents>,
    status: string,
    notes: Option<string>)

  /** The contract fields once the schema has accepted them. */
  datatype ContractValues = ContractValues(
    kind: ContractType,
    name: string,
    startDate: Day,
    endDate: Day,
    renewalDate: Day,
    amount: Cents,
    status: ContractStatus,
    notes: Option<string>)

  /** Every rule of the contract schema, stated directly. */
  predicate ContractRulesHold(f: ContractFields) {
    && ParseContractType(f.kind).Some?
    && |f.name| >= ContractNameMinLength
    && f.startDate.Some? && f.endDate.Some? && f.renewalDate.Some?
    && f.amount.Some? && f.amount.value > 0
    && ParseContractStatus(f.status).Some?
    && f.endDate.value > f.startDate.value
    && f.renewalDate.value <= f.endDate.value
  }

  /** The accepted values are the raw ones, parsed. */
  predicate ValuesMatch(v: ContractValues, f: ContractFields) {
    && ContractTypeName(v.kind) == f.kind
    && v.name == f.name
    && f.startDate == Some(v.startDate) && f.endDate == Some(v.endDate) && f.renewalDate == Some(v.renewalDate)
    && f.amount == Some(v.amount)
    && ContractStatusName(v.status) == f.status
    && v.notes == f.notes
  }

  /** The per-field checks, in declaration order. */
  function FieldIssues(f: ContractFields): seq<Issue> {
    Check(ParseContractType(f.kind).Some?, InvalidType)
    + Check(|f.name| >= ContractNameMinLength, NameTooShort)
    + Check(f.startDate.Some?, StartDateMissing)
    + Check(f.endDate.Some?, EndDateMissing)
    + Check(f.renewalDate.Some?, RenewalDateMissing)
    + Check(f.amount.Some?, AmountNotANumber)
    + Check(f.amount.None? || f.amount.value > 0, AmountNotPositive)
    + Check(ParseContractStatus(f.status).Some?, InvalidStatus)
  }

  /** The field failures that abort the object before the cross-field checks. */
  predicate Aborts(f: ContractFields) {
    || ParseContractType(f.kind).None?
    || f.startDate.None? || f.endDate.None? || f.renewalDate.None?
    || f.amount.None?
    || ParseContractStatus(f.status).None?
  }

  /** The two cross-field checks, in the order they are chained. */
  function DateIssues(startDate: Day, endDate: Day, renewalDate: Day): seq<Issue> {
    Check(endDate > startDate, EndNotAfterStart) + Check(renewalDate <= endDate, RenewalAfterEnd)
  }

  /** The contract schema, after `leading` issues from fields declared before
      the shared ones. */
  function ValidateContractFields(leading: seq<Issue>, f: ContractFields): (r: Validation<ContractValues>)
    ensures r.Valid? <==> leading == [] && ContractRulesHold(f)
    ensures r.Valid? ==> ValuesMatch(r.value, f)
    ensures r.Invalid? ==> leading + FieldIssues(f) <= r.issues
    ensures r.Invalid? && Aborts(f) ==> r.issues == leading + FieldIssues(f)
  {
    var fieldIssues := leading + FieldIssues(f);
    if Aborts(f) then
      assert InvalidType in FieldIssues(f) || StartDateMissing in FieldIssues(f)
          || EndDateMissing in FieldIssues(f) || RenewalDateMissing in FieldIssues(f)
          || AmountNotANumber in FieldIssues(f) || InvalidStatus in FieldIssues(f);
      Invalid(fieldIssues)
    else
      var all := fieldIssues + DateIssues(f.startDate.value, f.endDate.value, f.renewalDate.value);
      if all == [] then
        Valid(ContractValues(ParseContractType(f.kind).value, f.name, f.startDate.value, f.endDate.value,
                             f.renewalDate.value, f.amount.value, ParseContractStatus(f.status).value, f.notes))
      else
        assert all == fieldIssues + Check(f.endDate.value > f.startDate.value, EndNotAfterStart)
                                  + Check(f.renewalDate.value <= f.endDate.value, RenewalAfterEnd);
        Invalid(all)
  }

  /** Each rule, broken, is reported; the cross-field rules only when no
      field aborted the object. */
  lemma ContractFieldRejections(leading: seq<Issue>, f: ContractFields)
    ensures ParseContractType(f.kind).None? ==> Rejects(ValidateContractFields(leading, f), InvalidType)
    ensures |f.name| < ContractNameMinLength ==> Rejects(ValidateContractFields(leading, f), NameTooShort)
    ensures f.amount.Some? && f.amount.value <= 0 ==> Rejects(ValidateContractFields(leading, f), AmountNotPositive)
    ensures ParseContractStatus(f.status).None? ==> Rejects(ValidateContractFields(leading, f), InvalidStatus)
    ensures !Aborts(f) && f.endDate.value <= f.startDate.value ==>
              Rejects(ValidateContractFields(leading, f), EndNotAfterStart)
    ensures !Aborts(f) && f.renewalDate.value > f.endDate.value ==>
              Rejects(ValidateContractFields(leading, f), RenewalAfterEnd)
    ensures Aborts(f) && EndNotAfterStart !in leading && RenewalAfterEnd !in leading ==>
              && !Rejects(ValidateContractFields(leading, f), EndNotAfterStart)
              && !Rejects(ValidateContractFields(leading, f), RenewalAfterEnd)
  {
    var r := ValidateContractFields(leading, f);
    var fi := FieldIssues(f);
    FieldIssuesReported(leading, f);
    if ParseContractType(f.kind).None? {
      assert InvalidType in fi;
    }
    if |f.name| < ContractNameMinLength {
      assert NameTooShort in fi;
    }
    if f.amount.Some? && f.amount.value <= 0 {
      assert AmountNotPositive in fi;
    }
    if ParseContractStatus(f.status).None? {
      assert InvalidStatus in fi;
    }
    if !Aborts(f) {
      DateIssuesReported(leading, f);
    } else {
      NoDateIssueAmongFields(f);
    }
  }

  /** The per-field checks never report a cross-field issue. */
  lemma NoDateIssueAmongFields(f: ContractFields)
    ensures EndNotAfterStart !in FieldIssues(f) && RenewalAfterEnd !in FieldIssues(f)
  {
  }

  /** Without an abort, a broken cross-field rule is reported. */
  lemma DateIssuesReported(leading: seq<Issue>, f: ContractFields)
    requires !Aborts(f)
    ensures f.endDate.value <= f.startDate.value ==> Rejects(ValidateContractFields(leading, f), EndNotAfterStart)
    ensures f.renewalDate.value > f.endDate.value ==> Rejects(ValidateContractFields(leading, f), RenewalAfterEnd)
  {
    var all := leading + FieldIssues(f) + DateIssues(f.startDate.value, f.endDate.value, f.renewalDate.value);
    assert f.endDate.value <= f.startDate.value ==> EndNotAfterStart in all;
    assert f.renewalDate.value > f.endDate.value ==> RenewalAfterEnd in all;
  }

  /** A rejection carries every per-field issue. */
  lemma FieldIssuesReported(leading: seq<Issue>, f: ContractFields)
    ensures ValidateContractFields(leading, f).Invalid? ==>
              forall x :: x in FieldIssues(f) ==> x in ValidateContractFields(leading, f).issues
  {
    var r := ValidateContractFields(leading, f);
    var fi := FieldIssues(f);
    if r.Invalid? {
      forall x | x in fi ensures x in r.issues {
        var k :| 0 <= k < |fi| && fi[k] == x;
        assert r.issues[|leading| + k] == x;
      }
    }
  }

  /** The renewal date is never compared with the start date: a contract
      renewing before it starts is accepted. */
  lemma RenewalBeforeStartAccepted()
    ensures ValidateContractFields([], ContractFields("domain", "ab", Some(10), Some(20), Some(5), Some(1), "active", None)).Valid?
  {
  }

  // ---------------------------------------------------------------------
  // Add-contract form

  datatype NewContractInput = NewContractInput(customerId: string, fields: ContractFields)

  datatype NewContractValues = NewContractValues(customerId: string, values: ContractValues)

  /** The add-contract schema: a customer id first, then the shared fields. */
  function ValidateNewContract(input: NewContractInput): (r: Validation<NewContractValues>)
    ensures r.Valid? <==> |input.customerId| >= CustomerIdMinLength && ContractRulesHold(input.fields)
    ensures r.Valid? ==> r.value.customerId == input.customerId && ValuesMatch(r.value.values, input.fields)
    ensures |input.customerId| < CustomerIdMinLength ==> Rejects(r, CustomerIdMissing)
  {
    var leading := Check(|input.customerId| >= CustomerIdMinLength, CustomerIdMissing);
    match ValidateContractFields(leading, input.fields)
    case Valid(v) => Valid(NewContractValues(input.customerId, v))
    case Invalid(issues) =>
      assert leading <= issues;
      Invalid(issues)
  }

  /** The values the add-contract form opens with: the customer id the page
      passes in (or none), type domain, status active, empty name and notes,
      no dates and no amount. */
  function NewContractDefaults(customerId: Option<string>): (r: NewContractInput)
    ensures r.customerId == customerId.GetOr("")
    ensures ParseContractType(r.fields.kind) == Some(Domain)
    ensures ParseContractStatus(r.fields.status) == Some(Active)
    ensures r.fields.name == "" && r.fields.notes == Some("")
    ensures r.fields.startDate.None? && r.fields.endDate.None? && r.fields.renewalDate.None?
    ensures r.fields.amount.None?
  {
    NewContractInput(customerId.GetOr(""),
      ContractFields("domain", "", None, None, None, None, "active", Some("")))
  }

  /** The untouched add-contract form cannot be submitted, and its date
      checks never run. */
  lemma NewContractDefaultsRejected(customerId: Option<string>)
    ensures var r := ValidateNewContract(NewContractDefaults(customerId));
            Rejects(r, NameTooShort) && Rejects(r, StartDateMissing) && !Rejects(r, EndNotAfterStart)
  {
    var d := NewContractDefaults(customerId);
    ContractFieldRejections(Check(|d.customerId| >= CustomerIdMinLength, CustomerIdMissing), d.fields);
  }

  /** The record the add form sends: the accepted fields, plus the name of
      the first customer carrying the chosen id, or "" when none does. */
  function BuildContractDraft(customers: seq<Customer>, v: NewContractValues): (r: ContractDraft)
    ensures r.customerId == v.customerId && r.kind == v.values.kind && r.name == v.values.name
    ensures r.startDate == v.values.startDate && r.endDate == v.values.endDate
    ensures r.renewalDate == v.values.renewalDate && r.amount == v.values.amount
    ensures r.status == v.values.status && r.notes == v.values.notes
    ensures (forall i :: 0 <= i < |customers| ==> customers[i].id != v.customerId) ==> r.customerName == ""
    ensures forall i :: 0 <= i < |customers| && customers[i].id == v.customerId
                        && (forall j :: 0 <= j < i ==> customers[j].id != v.customerId)
               ==> r.customerName == customers[i].name
  {
    var customer := Find(customers, Store.CustomerIdIs(v.customerId));
    var customerName := if customer.Some? then customer.value.name else "";
    assert forall i :: 0 <= i < |customers| && customers[i].id == v.customerId
                       && (forall j :: 0 <= j < i ==> customers[j].id != v.customerId)
               ==> customer == Some(customers[i]) by {
      forall i | 0 <= i < |customers| && customers[i].id == v.customerId
                 && (forall j :: 0 <= j < i ==> customers[j].id != v.customerId)
        ensures customer == Some(customers[i])
      {
        FirstIndexIs(customers, Store.CustomerIdIs(v.customerId), i);
      }
    }
    ContractDraft(v.customerId, customerName, v.values.kind, v.values.name, v.values.startDate,
                  v.values.endDate, v.values.renewalDate, v.values.amount, v.values.status, v.values.notes)
  }

  /** A contract added through the form is stored obeying every schema rule,
      under a fresh id, and carries the name the data service reports for
      its customer at that moment. */
  lemma NewContractStored(db: Store.Db, input: NewContractInput)
    requires ValidateNewContract(input).Valid?
    ensures var v := ValidateNewContract(input).value;
            var c := Store.AddContract(db, BuildContractDraft(db.customers, v)).out;
            && c.id == Text.Decimal(|db.contracts| + 1)
            && |c.customerId| >= CustomerIdMinLength && |c.name| >= ContractNameMinLength
            && c.amount > 0 && c.endDate > c.startDate && c.renewalDate <= c.endDate
            && c.customerName == (match Store.FetchCustomerById(db, c.customerId)
                                  case Some(k) => k.name
                                  case None => "")
  {
    var v := ValidateNewContract(input).value;
    var customer := Find(db.customers, Store.CustomerIdIs(v.customerId));
    if customer.Some? {
      var i :| 0 <= i < |db.customers| && db.customers[i] == customer.value
               && Store.CustomerIdIs(v.customerId)(db.customers[i])
               && forall j :: 0 <= j < i ==> !Store.CustomerIdIs(v.customerId)(db.customers[j]);
      assert BuildContractDraft(db.customers, v).customerName == db.customers[i].name;
    }
  }

  // ---------------------------------------------------------------------
  // Edit-contract form

  /** The edit schema: the shared fields alone; customer and id are not
      editable. */
  function ValidateEdit(f: ContractFields): (r: Validation<ContractValues>)
    ensures r.Valid? <==> ContractRulesHold(f)
    ensures r.Valid? ==> ValuesMatch(r.value, f)
  {
    ValidateContractFields([], f)
  }

  /** The edit form opens on the contract's current values; absent notes
      show as "". */
  function EditDefaults(c: Contract): (r: ContractFields)
    ensures ParseContractType(r.kind) == Some(c.kind) && ParseContractStatus(r.status) == Some(c.status)
    ensures r.notes == Some(c.notes.GetOr(""))
    ensures r.name == c.name && r.amount == Some(c.amount)
    ensures r.startDate == Some(c.startDate) && r.endDate == Some(c.endDate) && r.renewalDate == Some(c.renewalDate)
  {
    EnumNamesRoundTrip(CustomerActive, c.kind, c.status);
    ContractFields(ContractTypeName(c.kind), c.name, Some(c.startDate), Some(c.endDate), Some(c.renewalDate),
                   Some(c.amount), ContractStatusName(c.status), Some(c.notes.GetOr("")))
  }

  /** The update the edit form sends: every editable field, and never the
      id, the customer id or the customer name. `notes` is always sent, so
      an absent value clears the stored one. */
  function EditPayload(v: ContractValues): (r: Store.ContractPatch)
    ensures r.id.None? && r.customerId.None? && r.customerName.None?
    ensures forall c: Contract :: Store.ApplyContractPatch(c, r)
              == c.(kind := v.kind, name := v.name, startDate := v.startDate, endDate := v.endDate,
                    renewalDate := v.renewalDate, amount := v.amount, status := v.status, notes := v.notes)
  {
    Store.ContractPatch(None, None, None, Some(v.kind), Some(v.name), Some(v.startDate), Some(v.endDate),
                        Some(v.renewalDate), Some(v.amount), Some(v.status), Some(v.notes))
  }

  /** The rules a stored contract must meet for its own edit form to be
      accepted unchanged. */
  predicate EditableAsIs(c: Contract) {
    |c.name| >= ContractNameMinLength && c.amount > 0 && c.endDate > c.startDate && c.renewalDate <= c.endDate
  }

  /** Saving the edit form untouched succeeds exactly when the stored
      contract already meets the schema, and then changes nothing but an
      absent note, which becomes "". */
  lemma EditUnchangedRoundTrip(c: Contract)
    ensures ValidateEdit(EditDefaults(c)).Valid? <==> EditableAsIs(c)
    ensures ValidateEdit(EditDefaults(c)).Valid? ==>
              Store.ApplyContractPatch(c, EditPayload(ValidateEdit(EditDefaults(c)).value))
                == c.(notes := Some(c.notes.GetOr("")))
  {
    var f := EditDefaults(c);
    if ValidateEdit(f).Valid? {
      var v := ValidateEdit(f).value;
      EnumNamesRoundTrip(CustomerActive, v.kind, v.status);
      EnumNamesRoundTrip(CustomerActive, c.kind, c.status);
    }
  }

  /** After an edit the contract keeps its id, customer and customer name,
      and holds the edited values; any of the three statuses may be chosen. */
  lemma EditKeepsOwnership(db: Store.Db, id: string, v: ContractValues)
    ensures var r := Store.UpdateContract(db, id, EditPayload(v));
            match Store.FetchContractById(db, id)
            case None => r.out.None?
            case Some(c) =>
              r.out.Some? && r.out.value.id == c.id && r.out.value.customerId == c.customerId
              && r.out.value.customerName == c.customerName
              && r.out.value.status == v.status && r.out.value.name == v.name
              && r.out.value.endDate == v.endDate && r.out.value.notes == v.notes
  {
  }

  // ---------------------------------------------------------------------
  // Renew form

  datatype RenewInput = RenewInput(endDate: Option<Day>, renewalDate: Option<Day>, amount: Option<Cents>)

  datatype RenewValues = RenewValues(endDate: Day, renewalDate: Day, amount: Cents)

  /** The renew schema: two dates and a positive amount, and the renewal no
      later than the end. Neither date is compared with the start date or
      with the contract's current end date. */
  function ValidateRenewal(input: RenewInput): (r: Validation<RenewValues>)
    ensures r.Valid? <==> input.endDate.Some? && input.renewalDate.Some? && input.amount.Some?
                          && input.amount.value > 0 && input.renewalDate.value <= input.endDate.value
    ensures r.Valid? ==> input == RenewInput(Some(r.value.endDate), Some(r.value.renewalDate), Some(r.value.amount))
    ensures input.amount.Some? && input.amount.value <= 0 ==> Rejects(r, AmountNotPositive)
    ensures input.endDate.None? || input.renewalDate.None? || input.amount.None? ==> !Rejects(r, RenewalAfterEnd)
  {
    var fieldIssues := Check(input.endDate.Some?, EndDateMissing)
                       + Check(input.renewalDate.Some?, RenewalDateMissing)
                       + Check(input.amount.Some?, AmountNotANumber)
                       + Check(input.amount.None? || input.amount.value > 0, AmountNotPositive);
    if input.endDate.None? || input.renewalDate.None? || input.amount.None? then
      Invalid(fieldIssues)
    else
      var all := fieldIssues + Check(input.renewalDate.value <= input.endDate.value, RenewalAfterEnd);
      if all == [] then Valid(RenewValues(input.endDate.value, input.renewalDate.value, input.amount.value))
      else Invalid(all)
  }

  /** A date shift that never reverses the order of two dates. */
  ghost predicate Monotone(shift: Day -> Day) {
    forall a: Day, b: Day :: a <= b ==> shift(a) <= shift(b)
  }

  /** The renew form opens on the current end and renewal dates each moved
      on by one year, and on the current amount. */
  function RenewDefaults(c: Contract, addYear: Day -> Day): (r: RenewInput)
    requires Monotone(addYear)
    ensures r.amount == Some(c.amount)
    ensures r.endDate == Some(addYear(c.endDate)) && r.renewalDate == Some(addYear(c.renewalDate))
    ensures c.renewalDate <= c.endDate ==> r.renewalDate.value <= r.endDate.value
  {
    RenewInput(Some(addYear(c.endDate)), Some(addYear(c.renewalDate)), Some(c.amount))
  }

  /** For a contract whose renewal is not after its end and whose amount is
      positive, the untouched renew form is accepted. */
  lemma RenewDefaultsAccepted(c: Contract, addYear: Day -> Day)
    requires Monotone(addYear)
    requires c.renewalDate <= c.endDate && c.amount > 0
    ensures ValidateRenewal(RenewDefaults(c, addYear)).Valid?
  {
  }

  /** The update the renew form sends: the two dates, the amount, and status
      active; nothing else. */
  function RenewPayload(v: RenewValues): (r: Store.ContractPatch)
    ensures r.status == Some(Active)
    ensures r.id.None? && r.customerId.None? && r.customerName.None? && r.kind.None?
    ensures r.name.None? && r.startDate.None? && r.notes.None?
  {
    Store.ContractPatch(None, None, None, None, None, None, Some(v.endDate), Some(v.renewalDate),
                        Some(v.amount), Some(Active), None)
  }

  /** A renewed contract is active, carries the new dates and amount, and
      keeps everything else; unless its new end date is already past, the
      detail page no longer offers to renew it. */
  lemma RenewalOutcome(db: Store.Db, id: string, v: RenewValues, now: Day)
    ensures var r := Store.UpdateContract(db, id, RenewPayload(v));
            match Store.FetchContractById(db, id)
            case None => r.out.None?
            case Some(c) =>
              && r.out == Some(c.(endDate := v.endDate, renewalDate := v.renewalDate,
                                  amount := v.amount, status := Active))
              && (v.endDate >= now ==> !Classifier.CanRenew(r.out.value, now))
  {
  }

  // ---------------------------------------------------------------------
  // Add-customer form

  datatype CustomerInput = CustomerInput(
    name: string,
    contactPerson: string,
    email: string,
    phone: string,
    address: string,
    status: string)

  /** Every rule of the customer schema, stated directly; `isEmail` stands
      for the library's address check. */
  predicate CustomerRulesHold(input: CustomerInput, isEmail: string -> bool) {
    && |input.name| >= CustomerNameMinLength
    && |input.contactPerson| >= ContactPersonMinLength
    && isEmail(input.email)
    && |input.phone| >= PhoneMinLength
    && |input.address| >= AddressMinLength
    && ParseCustomerStatus(input.status).Some?
  }

  /** The customer schema. It has no cross-field check, so every failing
      field is reported. What it accepts is already the six-field record the
      data service takes: the id and creation date are not the form's. */
  function ValidateCustomer(input: CustomerInput, isEmail: string -> bool): (r: Validation<CustomerDraft>)
    ensures r.Valid? <==> CustomerRulesHold(input, isEmail)
    ensures r.Valid? ==>
              && r.value.name == input.name && r.value.contactPerson == input.contactPerson
              && r.value.email == input.email && r.value.phone == input.phone
              && r.value.address == input.address && CustomerStatusName(r.value.status) == input.status
    ensures |input.name| < CustomerNameMinLength ==> Rejects(r, NameTooShort)
    ensures |input.contactPerson| < ContactPersonMinLength ==> Rejects(r, ContactPersonTooShort)
    ensures !isEmail(input.email) ==> Rejects(r, InvalidEmail)
    ensures |input.phone| < PhoneMinLength ==> Rejects(r, PhoneTooShort)
    ensures |input.address| < AddressMinLength ==> Rejects(r, AddressTooShort)
    ensures ParseCustomerStatus(input.status).None? ==> Rejects(r, InvalidCustomerStatus)
  {
    var issues := Check(|input.name| >= CustomerNameMinLength, NameTooShort)
                  + Check(|input.contactPerson| >= ContactPersonMinLength, ContactPersonTooShort)
                  + Check(isEmail(input.email), InvalidEmail)
                  + Check(|input.phone| >= PhoneMinLength, PhoneTooShort)
                  + Check(|input.address| >= AddressMinLength, AddressTooShort)
                  + Check(ParseCustomerStatus(input.status).Some?, InvalidCustomerStatus);
    if issues == [] then
      Valid(CustomerDraft(input.name, input.email, input.phone, input.contactPerson, input.address,
                          ParseCustomerStatus(input.status).value))
    else
      Invalid(issues)
  }

  /** The add-customer form opens empty, with status active. */
  function CustomerDefaults(): (r: CustomerInput)
    ensures ParseCustomerStatus(r.status) == Some(CustomerActive)
    ensures r.name == "" && r.email == "" && r.contactPerson == "" && r.phone == "" && r.address == ""
  {
    CustomerInput("", "", "", "", "", "active")
  }

  /** The untouched add-customer form cannot be submitted: every length rule
      is broken and reported. */
  lemma CustomerDefaultsRejected(isEmail: string -> bool)
    ensures var r := ValidateCustomer(CustomerDefaults(), isEmail);
            && !r.Valid?
            && Rejects(r, NameTooShort) && Rejects(r, ContactPersonTooShort)
            && Rejects(r, PhoneTooShort) && Rejects(r, AddressTooShort)
            && !Rejects(r, InvalidCustomerStatus)
  {
  }

  /** A customer added through the form is stored obeying every schema rule,
      with the next id and today's date. */
  lemma NewCustomerStored(db: Store.Db, input: CustomerInput, isEmail: string -> bool, now: Day)
    requires ValidateCustomer(input, isEmail).Valid?
    ensures var c := Store.AddCustomer(db, ValidateCustomer(input, isEmail).value, now).out;
            && c.id == Text.Decimal(|db.customers| + 1) && c.createdAt == now
            && |c.name| >= CustomerNameMinLength && |c.contactPerson| >= ContactPersonMinLength
            && isEmail(c.email) && |c.phone| >= PhoneMinLength && |c.address| >= AddressMinLength
            && CustomerStatusName(c.status) == input.status
  {
  }
}
