/**
 * Business accounts: the user manager's `create_user` / `create_superuser`,
 * the password-length rule of `set_password`, the permission checks, the
 * recovery-contact pattern, and the generator of `FZ-NNNNNN` business codes.
 * Password hashing is a foreign call and enters as the parameter `makePassword`.
 */
module Accounts {
  import opened Wrappers
  import opened Text
  import opened Draws
  import opened Schema

  datatype AccountError = BusinessCodeRequired | RecoveryContactRequired | PasswordTooShort | DuplicateBusiness

  const MinPasswordLength := 6

  /** The keyword arguments `create_user` passes through to the model; absent ones take the field defaults. */
  datatype ExtraFields = ExtraFields(
    status: Option<AccountStatus>,
    isActive: Option<bool>,
    isStaff: Option<bool>,
    isSuperuser: Option<bool>)

  /**
   * `set_password` on an unsaved instance: a missing password counts as empty,
   * anything shorter than six characters is refused, otherwise only the stored
   * hash changes.
   */
  function SetPassword(b: BusinessRow, raw: Option<string>, makePassword: string -> string): (r: Result<BusinessRow, AccountError>)
    ensures r.Failure? <==> raw.None? || |raw.value| < MinPasswordLength
    ensures r.Failure? ==> r.error == PasswordTooShort
    ensures r.Success? ==> r.value.password == makePassword(raw.value)
    ensures r.Success? ==> r.value.(password := b.password) == b
  {
    if |raw.GetOr("")| < MinPasswordLength then Failure(PasswordTooShort)
    else Success(b.(password := makePassword(raw.value)))
  }

  /** The unsaved instance `self.model(business_code=..., recovery_contact=..., **extra_fields)`. */
  function NewBusiness(businessCode: string, recoveryContact: string, extra: ExtraFields): BusinessRow
  {
    BusinessRow(businessCode, "", recoveryContact, extra.status.GetOr(Active),
                extra.isActive.GetOr(true), extra.isStaff.GetOr(false), extra.isSuperuser.GetOr(false))
  }

  predicate CodeOrContactTaken(businesses: map<Id, BusinessRow>, businessCode: string, recoveryContact: string)
  {
    exists b :: b in businesses &&
      (businesses[b].businessCode == businessCode || businesses[b].recoveryContact == recoveryContact)
  }

  /** The tables after inserting `row` as a new business under the next key. */
  function WithBusiness(t: Tables, row: BusinessRow): Tables
  {
    t.(businesses := t.businesses[t.nextId := row], nextId := t.nextId + 1)
  }

  /** A business whose code and recovery contact are both unused keeps the tables valid. */
  lemma NewBusinessKeepsTables(t: Tables, row: BusinessRow)
    requires TablesValid(t)
    requires !CodeOrContactTaken(t.businesses, row.businessCode, row.recoveryContact)
    ensures t.nextId !in t.businesses
    ensures TablesValid(WithBusiness(t, row))
  {
    var t' := WithBusiness(t, row);
    KeysBelowInsert(t.businesses, t.nextId, row);
    KeysBelowRaise(t.categories, t.nextId);
    KeysBelowRaise(t.products, t.nextId);
    KeysBelowRaise(t.orders, t.nextId);
    ItemIdsBelowRaise(t.items, t.nextId);
    forall b, b' ensures BusinessesDiffer(t'.businesses, b, b') {
      if b != t.nextId && b' != t.nextId {
        assert BusinessesDiffer(t.businesses, b, b');
      }
    }
    CategoriesGrowBusinesses(t.categories, t.businesses, t'.businesses);
    ProductsGrowParents(t.products, t.categories, t.businesses, t.categories, t'.businesses);
    OrdersGrowBusinesses(t.orders, t.businesses, t'.businesses);
  }

  /**
   * `BusinessManager.create_user`: the two required fields are checked first, a
   * short password aborts before anything is saved, and the unique columns refuse
   * a duplicate business code or recovery contact.
   */
  method CreateUser(db: Store, businessCode: string, recoveryContact: string, password: Option<string>,
                    extra: ExtraFields, makePassword: string -> string) returns (r: Result<Id, AccountError>)
    requires db.Valid()
    modifies db
    ensures db.Valid()
    ensures businessCode == "" ==> r == Failure(BusinessCodeRequired)
    ensures businessCode != "" && recoveryContact == "" ==> r == Failure(RecoveryContactRequired)
    ensures businessCode != "" && recoveryContact != "" && |password.GetOr("")| < MinPasswordLength ==>
              r == Failure(PasswordTooShort)
    ensures r.Failure? ==> db.tables == old(db.tables)
    ensures r.Success? <==>
              businessCode != "" && recoveryContact != "" && |password.GetOr("")| >= MinPasswordLength &&
              !CodeOrContactTaken(old(db.tables).businesses, businessCode, recoveryContact)
    ensures r.Success? ==>
              r.value == old(db.tables).nextId && r.value !in old(db.tables).businesses &&
              db.tables == WithBusiness(old(db.tables),
                NewBusiness(businessCode, recoveryContact, extra).(password := makePassword(password.value)))
  {
    if businessCode == "" {
      r := Failure(BusinessCodeRequired);
    } else if recoveryContact == "" {
      r := Failure(RecoveryContactRequired);
    } else {
      var business := SetPassword(NewBusiness(businessCode, recoveryContact, extra), password, makePassword);
      if business.Failure? {
        r := Failure(business.error);
      } else if CodeOrContactTaken(db.tables.businesses, businessCode, recoveryContact) {
        r := Failure(DuplicateBusiness);
      } else {
        NewBusinessKeepsTables(db.tables, business.value);
        r := Success(db.tables.nextId);
        db.tables := WithBusiness(db.tables, business.value);
      }
    }
  }

  /** `create_superuser`: staff and superuser default to true unless the caller set them. */
  function SuperuserExtra(extra: ExtraFields): (e: ExtraFields)
    ensures e.isStaff == Some(extra.isStaff.GetOr(true)) && e.isSuperuser == Some(extra.isSuperuser.GetOr(true))
    ensures e.status == extra.status && e.isActive == extra.isActive
  {
    extra.(isStaff := Some(extra.isStaff.GetOr(true)), isSuperuser := Some(extra.isSuperuser.GetOr(true)))
  }

  /**
   * `create_superuser` is `create_user` with the superuser defaults: the same
   * error cases in the same order, and on success the same insert, of a row
   * whose staff and superuser flags default to true.
   */
  method CreateSuperuser(db: Store, businessCode: string, recoveryContact: string, password: Option<string>,
                         extra: ExtraFields, makePassword: string -> string) returns (r: Result<Id, AccountError>)
    requires db.Valid()
    modifies db
    ensures db.Valid()
    ensures businessCode == "" ==> r == Failure(BusinessCodeRequired)
    ensures businessCode != "" && recoveryContact == "" ==> r == Failure(RecoveryContactRequired)
    ensures businessCode != "" && recoveryContact != "" && |password.GetOr("")| < MinPasswordLength ==>
              r == Failure(PasswordTooShort)
    ensures r.Failure? ==> db.tables == old(db.tables)
    ensures r.Success? <==>
              businessCode != "" && recoveryContact != "" && |password.GetOr("")| >= MinPasswordLength &&
              !CodeOrContactTaken(old(db.tables).businesses, businessCode, recoveryContact)
    ensures r.Success? ==>
              r.value == old(db.tables).nextId && r.value !in old(db.tables).businesses &&
              db.tables == WithBusiness(old(db.tables),
                NewBusiness(businessCode, recoveryContact, SuperuserExtra(extra)).(password := makePassword(password.value)))
    ensures r.Success? ==>
              var b := db.tables.businesses[r.value];
              && b.isStaff == extra.isStaff.GetOr(true) && b.isSuperuser == extra.isSuperuser.GetOr(true)
              && b.status == extra.status.GetOr(Active) && b.isActive == extra.isActive.GetOr(true)
  {
    r := CreateUser(db, businessCode, recoveryContact, password, SuperuserExtra(extra), makePassword);
  }

  /** `has_perm`: every permission, on every object, belongs exactly to superusers. */
  function HasPerm(b: BusinessRow, perm: string, obj: Option<Id>): (r: bool)
    ensures r <==> b.isSuperuser
  {
    b.isSuperuser
  }

  function HasModulePerms(b: BusinessRow, appLabel: string): (r: bool)
    ensures r <==> b.isSuperuser
  {
    b.isSuperuser
  }

  /**
   * The recovery-contact validator `^[0-9]{10,15}$`, searched the way Python's
   * `re.search` does: `$` also matches just before one trailing newline.
   */
  predicate MatchesRecoveryContact(s: string)
  {
    var body := if |s| > 0 && s[|s| - 1] == '\n' then s[..|s| - 1] else s;
    10 <= |body| <= 15 && AllDigits(body)
  }

  /** Without a trailing newline the pattern accepts exactly the strings of 10 to 15 decimal digits. */
  lemma RecoveryContactDigits(s: string)
    requires |s| == 0 || s[|s| - 1] != '\n'
    ensures MatchesRecoveryContact(s) <==> 10 <= |s| <= 15 && forall i :: 0 <= i < |s| ==> '0' <= s[i] <= '9'
  {
  }

  /** With one trailing newline the pattern accepts exactly 10 to 15 decimal digits followed by that newline. */
  lemma RecoveryContactNewline(s: string)
    requires |s| > 0 && s[|s| - 1] == '\n'
    ensures MatchesRecoveryContact(s) <==> 11 <= |s| <= 16 && forall i :: 0 <= i < |s| - 1 ==> '0' <= s[i] <= '9'
  {
    var body := s[..|s| - 1];
    assert forall i :: 0 <= i < |body| ==> body[i] == s[i];
  }

  /** The business codes in use. */
  function BusinessCodesInUse(businesses: map<Id, BusinessRow>): (codes: set<string>)
    ensures forall k :: k in businesses ==> businesses[k].businessCode in codes
    ensures forall c :: c in codes ==> exists k :: k in businesses && businesses[k].businessCode == c
  {
    set k | k in businesses :: businesses[k].businessCode
  }

  /** `FZ-<number>` as formatted by `generate_business_code`. */
  function BusinessCode(number: int): string
    requires 100000 <= number <= 999999
  {
    "FZ-" + NatToString(number)
  }

  /** A six-digit draw gives a nine-character code whose number part reads back as the draw. */
  lemma {:induction false} BusinessCodeShape(number: int)
    requires 100000 <= number <= 999999
    ensures |BusinessCode(number)| == 9
    ensures BusinessCode(number)[..3] == "FZ-"
    ensures AllDigits(BusinessCode(number)[3..]) && BusinessCode(number)[3] != '0'
    ensures DecimalValue(BusinessCode(number)[3..]) == number
  {
    assert Pow10(5) == 100000 && Pow10(6) == 1000000;
    NatToStringLength(number, 6);
    NatToStringRoundTrip(number);
    assert BusinessCode(number)[3..] == NatToString(number);
  }

  function BusinessCodes(draws: seq<int>): (codes: seq<string>)
    requires forall i :: 0 <= i < |draws| ==> 100000 <= draws[i] <= 999999
    ensures |codes| == |draws| && forall i :: 0 <= i < |draws| ==> codes[i] == BusinessCode(draws[i])
  {
    seq(|draws|, i requires 0 <= i < |draws| => BusinessCode(draws[i]))
  }

  /**
   * `generate_business_code`: redraw from [100000, 999999] until `FZ-<number>`
   * is not an existing business code; the first unused draw wins.
   */
  method GenerateBusinessCode(businesses: map<Id, BusinessRow>, draws: seq<int>) returns (r: Option<string>)
    requires forall i :: 0 <= i < |draws| ==> 100000 <= draws[i] <= 999999
    ensures r == FirstUnused(BusinessCodes(draws), BusinessCodesInUse(businesses))
    ensures r.Some? ==> (forall k :: k in businesses ==> businesses[k].businessCode != r.value)
                        && |r.value| == 9 && r.value[..3] == "FZ-"
    ensures r.Some? ==> exists k :: 0 <= k < |draws| && r.value == BusinessCode(draws[k])
  {
    var existing := BusinessCodesInUse(businesses);
    ghost var codes := BusinessCodes(draws);
    var i := 0;
    while i < |draws|
      invariant 0 <= i <= |draws|
      invariant forall j :: 0 <= j < i ==> codes[j] in existing
    {
      var code := "FZ-" + NatToString(draws[i]);
      if code !in existing {
        FirstUnusedSkip(codes, existing, i);
        BusinessCodeShape(draws[i]);
        return Some(code);
      }
      i := i + 1;
    }
    FirstUnusedSkip(codes, existing, i);
    r := None;
  }
}
