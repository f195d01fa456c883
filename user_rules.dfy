/**
 * The business rules of the user module as values: the fields of a User bean,
 * the stored user rows, and `Check`, which says what checkUser answers and what
 * it leaves in the bean it was given.
 */
module UserRules {
  import opened Optional
  import opened JavaText
  import opened Messages

  /** The fields of a User bean that the handlers read or rewrite. */
  datatype Fields = Fields(id: int, name: Option<string>, password: Option<string>)

  /** The answer of checkUser (None means valid) and the bean's fields afterwards
      (None when no bean was given). */
  datatype Verdict = Verdict(msg: Option<Msg>, after: Option<Fields>)

  /** Which name the duplicate lookup asks the store about: the name as bound
      from the request (as written) or the trimmed name that is then stored. */
  datatype NameProbe = RawName | TrimmedName

  /** A stored user row. */
  datatype Account = Account(name: string, password: string)

  /** The names present in the user table. */
  function NamesOf(users: map<int, Account>): set<string>
  {
    set id | id in users :: users[id].name
  }

  /** No two user rows share a name. */
  ghost predicate UniqueNames(users: map<int, Account>)
  {
    forall a, b :: a in users && b in users && a != b ==> users[a].name != users[b].name
  }

  function Probe(name: string, probe: NameProbe): string
  {
    match probe
    case RawName => name
    case TrimmedName => Trim(name)
  }

  /** The blank step: create mode needs name and password, update mode only the password. */
  predicate PassesBlankStep(f: Fields, create: bool)
  {
    !IsBlank(f.password) && (create ==> !IsBlank(f.name))
  }

  /** The blank step, then a trimmed password of 6 to 12 characters. */
  predicate PassesLengthStep(f: Fields, create: bool)
  {
    PassesBlankStep(f, create) && 6 <= |Trim(f.password.value)| <= 12
  }

  /**
   * checkUser: the rules in the order the handler applies them, with the bean's
   * fields after the call. The password is rewritten trimmed as soon as the
   * length step passes, so a later rejection still leaves it trimmed; the name
   * is trimmed only when every rule passes. CheckRuleOrder states the rules
   * one by one.
   */
  function Check(u: Option<Fields>, create: bool, names: set<string>, probe: NameProbe): (v: Verdict)
    // A missing bean is rejected first and there is nothing to rewrite.
    ensures u.None? <==> v.after.None?
    ensures u.None? ==> v.msg == Some(NullObject)
    // The id is never rewritten.
    ensures u.Some? ==> v.after.value.id == u.value.id
    // Acceptance leaves a trimmed password of 6 to 12 characters, and a name on create.
    ensures v.msg.None? ==>
              && v.after.value.password.Some?
              && IsTrimmed(v.after.value.password.value)
              && 6 <= |v.after.value.password.value| <= 12
              && (create ==> v.after.value.name.Some?)
    // On rejection the name is left as it was.
    ensures v.msg.Some? && u.Some? ==> v.after.value.name == u.value.name
    // With the trimmed probe an accepted name is new to the store.
    ensures probe == TrimmedName && create && v.msg.None? ==> v.after.value.name.value !in names
  {
    if u.None? then Verdict(Some(NullObject), None)
    else
      var f := u.value;
      if create && (IsBlank(f.name) || IsBlank(f.password)) then Verdict(Some(BlankNameOrPassword), u)
      else if !create && IsBlank(f.password) then Verdict(Some(BlankPassword), u)
      else
        var p := Trim(f.password.value);
        if 6 > |p| || |p| > 12 then Verdict(Some(BadPasswordLength), u)
        else
          var g := f.(password := Some(p));
          if create && Probe(f.name.value, probe) in names then Verdict(Some(NameExists), Some(g))
          else if !create && f.id < 1 then Verdict(Some(BadId), Some(g))
          else if f.name.Some? then Verdict(None, Some(g.(name := Some(Trim(f.name.value)))))
          else Verdict(None, Some(g))
  }

  /** The rules of checkUser one by one, in the order they apply. */
  lemma CheckRuleOrder(u: Option<Fields>, create: bool, names: set<string>, probe: NameProbe)
    ensures var v := Check(u, create, names, probe);
      // Blank step, create mode: either field blank is rejected, nothing changes.
      && (u.Some? && create && (IsBlank(u.value.name) || IsBlank(u.value.password)) ==>
            v == Verdict(Some(BlankNameOrPassword), u))
      // Blank step, update mode: only the password is looked at.
      && (u.Some? && !create ==> (v.msg == Some(BlankPassword) <==> IsBlank(u.value.password)))
      && (v.msg == Some(BlankPassword) ==> v.after == u)
      // Length step: rejected with nothing changed exactly when the blank step
      // passed and the trimmed password is shorter than 6 or longer than 12.
      && (v.msg == Some(BadPasswordLength) <==>
            u.Some? && PassesBlankStep(u.value, create) && !PassesLengthStep(u.value, create))
      && (v.msg == Some(BadPasswordLength) ==> v.after == u)
      // Past the length step the password is the trimmed one, whatever follows.
      && (u.Some? && PassesLengthStep(u.value, create) ==>
            v.after.value.password == Some(Trim(u.value.password.value)))
      // Duplicate name (create mode) and id below 1 (update mode).
      && (v.msg == Some(NameExists) <==>
            u.Some? && create && PassesLengthStep(u.value, create) && Probe(u.value.name.value, probe) in names)
      && (v.msg == Some(BadId) <==>
            u.Some? && !create && PassesLengthStep(u.value, create) && u.value.id < 1)
      // Acceptance exactly when every rule passes; the name is then trimmed.
      && (v.msg.None? <==>
            u.Some? && PassesLengthStep(u.value, create) &&
            (if create then Probe(u.value.name.value, probe) !in names else u.value.id >= 1))
      && (v.msg.None? ==>
            v.after.value.name == (if u.value.name.Some? then Some(Trim(u.value.name.value)) else None))
  {
  }

  /** What checkUser stores on acceptance is the request's password and name
      with only surrounding trimmable characters removed. */
  lemma AcceptedFieldsAreTrimmed(f: Fields, create: bool, names: set<string>, probe: NameProbe)
    requires Check(Some(f), create, names, probe).msg.None?
    ensures var g := Check(Some(f), create, names, probe).after.value;
            && g.password.Some? && IsTrimOf(g.password.value, f.password.value)
            && g.name.Some? == f.name.Some?
            && (f.name.Some? ==> IsTrimOf(g.name.value, f.name.value))
  {
    TrimIsTrimOf(f.password.value);
    if f.name.Some? {
      TrimIsTrimOf(f.name.value);
    }
  }

  /** The rule of the password-update handler: not blank and at least 6 long,
      untrimmed, with no upper bound. */
  predicate UpdateAccepts(password: Option<string>)
  {
    !IsBlank(password) && |password.value| >= 6
  }

  /** The row that userService.add is asked to store for an accepted bean. */
  function RowOf(f: Fields): Account
    requires f.name.Some? && f.password.Some?
  {
    Account(f.name.value, f.password.value)
  }

  /**
   * As written, the duplicate lookup uses the untrimmed name while the trimmed
   * name is stored: with a name `n` stored, " " + n passes the check, and adding
   * the row it yields leaves two rows named `n`.
   */
  lemma DuplicateSlipsThrough(users: map<int, Account>, id: int, pw: string, newId: int)
    requires id in users && newId !in users
    requires IsTrimmed(users[id].name) && !IsBlank(Some(users[id].name))
    requires " " + users[id].name !in NamesOf(users)
    requires !IsBlank(Some(pw)) && 6 <= |Trim(pw)| <= 12
    ensures var n := users[id].name;
            var v := Check(Some(Fields(0, Some(" " + n), Some(pw))), true, NamesOf(users), RawName);
            && v.msg.None?
            && v.after.value.name == Some(n)
            && !UniqueNames(users[newId := RowOf(v.after.value)])
  {
    var n := users[id].name;
    PaddedNameAccepted(n, pw, NamesOf(users));
    var v := Check(Some(Fields(0, Some(" " + n), Some(pw))), true, NamesOf(users), RawName);
    var users' := users[newId := RowOf(v.after.value)];
    assert users'[id].name == users'[newId].name;
  }

  /** The step of DuplicateSlipsThrough about the check alone. */
  lemma PaddedNameAccepted(n: string, pw: string, names: set<string>)
    requires IsTrimmed(n) && !IsBlank(Some(n)) && " " + n !in names
    requires !IsBlank(Some(pw)) && 6 <= |Trim(pw)| <= 12
    ensures var v := Check(Some(Fields(0, Some(" " + n), Some(pw))), true, names, RawName);
            v.msg.None? && v.after.value.name == Some(n)
  {
    var name := " " + n;
    TrimPadded(n);
    PaddedNotBlank(n);
    var f := Fields(0, Some(name), Some(pw));
    assert PassesLengthStep(f, true) && Probe(name, RawName) !in names;
    assert Check(Some(f), true, names, RawName) == Verdict(None, Some(Fields(0, Some(n), Some(Trim(pw)))));
  }

  /** Corrected: looking up the trimmed name, an accepted bean never duplicates a
      stored name, so adding its row keeps the names unique. */
  lemma AddKeepsNamesUnique(users: map<int, Account>, f: Fields, id: int)
    requires UniqueNames(users) && id !in users
    requires Check(Some(f), true, NamesOf(users), TrimmedName).msg.None?
    ensures var g := Check(Some(f), true, NamesOf(users), TrimmedName).after.value;
            g.name.Some? && g.password.Some? && UniqueNames(users[id := RowOf(g)])
  {
    var g := Check(Some(f), true, NamesOf(users), TrimmedName).after.value;
    var users' := users[id := RowOf(g)];
    forall a, b | a in users' && b in users' && a != b
      ensures users'[a].name != users'[b].name
    {
      if a == id {
        assert users[b].name in NamesOf(users);
      } else if b == id {
        assert users[a].name in NamesOf(users);
      }
    }
  }

  /** Every password checkUser accepts in update mode is also accepted by the
      password-update handler. */
  lemma CheckedPasswordPassesUpdate(f: Fields, names: set<string>, probe: NameProbe)
    requires Check(Some(f), false, names, probe).msg.None?
    ensures UpdateAccepts(f.password)
  {
    assert 6 <= |Trim(f.password.value)| <= |f.password.value|;
  }

  /** The converse fails: the update handler neither trims nor caps the length,
      so it stores passwords checkUser rejects, such as any untrimmed password
      of 6 or more characters whose trimmed form is shorter than 6. */
  lemma UpdateIsLaxer(f: Fields, names: set<string>, probe: NameProbe)
    requires UpdateAccepts(f.password) && |Trim(f.password.value)| < 6
    ensures Check(Some(f), false, names, probe).msg == Some(BadPasswordLength)
  {
  }

  /** Validating an accepted bean again in update mode accepts it unchanged, as
      long as its trimmed password is not blank. */
  lemma RevalidateUpdate(f: Fields, names: set<string>, probe: NameProbe)
    requires Check(Some(f), false, names, probe).msg.None?
    requires !IsBlank(Check(Some(f), false, names, probe).after.value.password)
    ensures var g := Check(Some(f), false, names, probe).after;
            Check(g, false, names, probe) == Verdict(None, g)
  {
    var p := Trim(f.password.value);
    var n := if f.name.Some? then Some(Trim(f.name.value)) else None;
    var g := Fields(f.id, n, Some(p));
    assert Check(Some(f), false, names, probe) == Verdict(None, Some(g));
    TrimIdempotent(f.password.value);
    if f.name.Some? {
      TrimIdempotent(f.name.value);
    }
    assert Trim(p) == p;
  }

  /** The proviso is needed: blankness and trimming disagree on control
      characters and on Unicode spaces, so a control character that is not
      whitespace in front of six ideographic spaces is accepted, and the stored
      password is blank. */
  lemma AcceptedPasswordMayBeBlank(f: Fields, names: set<string>, probe: NameProbe, c: char, q: string)
    requires f.password == Some([c] + q) && f.id >= 1
    requires IsTrimmable(c) && !IsWhitespace(c)
    requires IsTrimmed(q) && IsBlank(Some(q)) && 6 <= |q| <= 12
    ensures var v := Check(Some(f), false, names, probe);
            && v.msg.None?
            && IsBlank(v.after.value.password)
            && Check(v.after, false, names, probe).msg == Some(BlankPassword)
  {
    var p := [c] + q;
    assert p[1..] == q && !IsWhitespace(p[0]);
    assert TrimStart(p) == TrimStart(q);
    TrimKeepsTrimmed(q);
    assert Trim(p) == q;
  }
}
