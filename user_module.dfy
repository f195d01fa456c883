/**
 * The user handlers over an abstract store: the user table (id to row), the
 * owners of the UserProfile rows, and the auto-increment counter the store uses
 * for new ids. The signed-in user lives in a separate Session object.
 */
module UserHandlers {
  import opened Optional
  import opened JavaText
  import opened Messages
  import opened UserRules

  /** The User bean bound from request parameters; checkUser rewrites it in place. */
  class User {
    var id: int
    var name: Option<string>
    var password: Option<string>

    constructor (id: int, name: Option<string>, password: Option<string>)
      ensures this.id == id && this.name == name && this.password == password
    {
      this.id := id;
      this.name := name;
      this.password := password;
    }
  }

  /** The bean's fields, None for a null bean. */
  function FieldsOf(user: User?): Option<Fields>
    reads user
  {
    if user == null then None else Some(Fields(user.id, user.name, user.password))
  }

  /** The session attribute `me`: the id of the signed-in user, if any. */
  class Session {
    var me: Option<int>

    constructor ()
      ensures me == None
    {
      me := None;
    }
  }

  /** What a user row shows in a JSON reply: the password is locked out. */
  datatype Shown = Shown(id: int, name: string)

  /** A handler's JSON reply: {ok: true, data} or {ok: false, msg}. */
  datatype Reply = Ok(data: Option<Shown>) | Fail(msg: Msg)

  /** The name filter of the listing handler: none for a blank name, otherwise
      `name like %n%`. */
  function QueryFilter(name: Option<string>): (f: Option<string>)
    ensures f.None? <==> IsBlank(name)
    ensures f.Some? ==> f == name
  {
    if IsBlank(name) then None else name
  }

  /** `n` occurs in `s` as a contiguous piece. */
  predicate Contains(s: string, n: string)
  {
    exists i | 0 <= i <= |s| - |n| :: n <= s[i..]
  }

  /** The rows `name like %n%` selects, every row when there is no filter. */
  predicate Matches(filter: Option<string>, s: string)
  {
    filter.None? || Contains(s, filter.value)
  }

  /** A name matches a filter exactly when the filter occurs in it somewhere:
      a piece of the name, wherever it stands, selects the row, and nothing
      longer than the name does. */
  lemma InfixMatches(a: string, n: string, b: string)
    ensures Matches(Some(n), a + n + b)
  {
    assert n <= (a + n + b)[|a|..];
  }

  lemma MatchIsPiece(n: string, s: string)
    requires Matches(Some(n), s)
    ensures exists i | 0 <= i <= |s| - |n| :: s == s[..i] + n + s[i + |n|..]
  {
    var i :| 0 <= i <= |s| - |n| && n <= s[i..];
    assert s == s[..i] + n + s[i + |n|..];
  }

  class UserModule {
    var users: map<int, Account>
    var profileOwners: multiset<int>
    var nextId: int

    /** Ids are positive and below the next id the store hands out. */
    ghost predicate Valid()
      reads this
    {
      1 <= nextId && forall id :: id in users ==> 1 <= id < nextId
    }

    constructor ()
      ensures Valid() && users == map[] && profileOwners == multiset{} && nextId == 1
    {
      users, profileOwners, nextId := map[], multiset{}, 1;
    }

    /** The number of user rows named `n` (the store's count with `name = n`). */
    function CountNamed(n: string): (c: nat)
      reads this
      ensures c != 0 <==> n in NamesOf(users)
    {
      var named := set id | id in users && users[id].name == n;
      if n in NamesOf(users) then
        var id :| id in users && users[id].name == n;
        assert id in named;
        |named|
      else
        assert forall id :: id !in named;
        assert named == {};
        |named|
    }

    /** count(): the number of user rows. */
    method Count() returns (n: nat)
      ensures n == |users.Keys|
    {
      n := |users.Keys|;
    }

    /** checkUser, as written: rules in order, rewriting the bean in place. */
    method CheckUser(user: User?, create: bool) returns (msg: Option<Msg>)
      modifies user
      ensures var v := Check(old(FieldsOf(user)), create, NamesOf(users), RawName);
              msg == v.msg && FieldsOf(user) == v.after
    {
      if user == null {
        return Some(NullObject);
      }
      if create {
        if IsBlank(user.name) || IsBlank(user.password) {
          return Some(BlankNameOrPassword);
        }
      } else {
        if IsBlank(user.password) {
          return Some(BlankPassword);
        }
      }
      var passwd := Trim(user.password.value);
      if 6 > |passwd| || |passwd| > 12 {
        return Some(BadPasswordLength);
      }
      user.password := Some(passwd);
      if create {
        var count := CountNamed(user.name.value);
        if count != 0 {
          return Some(NameExists);
        }
      } else {
        if user.id < 1 {
          return Some(BadId);
        }
      }
      if user.name != None {
        user.name := Some(Trim(user.name.value));
      }
      return None;
    }

    /** add: stores a new row only when checkUser accepts the bean. */
    method Add(user: User?) returns (r: Reply)
      requires Valid()
      modifies this, user
      ensures Valid() && profileOwners == old(profileOwners)
      ensures var v := Check(old(FieldsOf(user)), true, NamesOf(old(users)), RawName);
              && FieldsOf(user) == v.after
              && (v.msg.Some? ==> r == Fail(v.msg.value) && users == old(users) && nextId == old(nextId))
              && (v.msg.None? ==>
                    var f := v.after.value;
                    && f.name.Some? && f.password.Some?
                    && old(nextId) !in old(users)
                    && users == old(users)[old(nextId) := RowOf(f)]
                    && nextId == old(nextId) + 1
                    && r == Ok(Some(Shown(old(nextId), f.name.value))))
    {
      ghost var v := Check(FieldsOf(user), true, NamesOf(users), RawName);
      var msg := CheckUser(user, true);
      assert msg == v.msg && FieldsOf(user) == v.after;
      if msg != None {
        return Fail(msg.value);
      }
      var id := Insert(user.name.value, user.password.value);
      r := Ok(Some(Shown(id, user.name.value)));
    }

    /** userService.add: stores a new user row under the next id. */
    method Insert(name: string, password: string) returns (id: int)
      requires Valid()
      modifies this
      ensures Valid() && profileOwners == old(profileOwners)
      ensures id == old(nextId) && id !in old(users) && nextId == id + 1
      ensures users == old(users)[id := Account(name, password)]
    {
      id := nextId;
      users := users[id := Account(name, password)];
      nextId := nextId + 1;
    }

    /** update: sets the signed-in user's password when it is not blank and at
        least 6 long, as given, without trimming. */
    method Update(password: Option<string>, me: int) returns (r: Reply)
      requires Valid()
      modifies this
      ensures Valid() && profileOwners == old(profileOwners) && nextId == old(nextId)
      ensures !UpdateAccepts(password) ==> r == Fail(BadNewPassword) && users == old(users)
      ensures UpdateAccepts(password) ==>
                && r == Ok(None)
                && users.Keys == old(users).Keys
                && (me in users ==> users[me] == old(users)[me].(password := password.value))
                && forall id :: id in users && id != me ==> users[id] == old(users)[id]
    {
      if !UpdateAccepts(password) {
        return Fail(BadNewPassword);
      }
      if me in users {
        users := users[me := users[me].(password := password.value)];
      }
      return Ok(None);
    }

    /**
     * delete: refuses the signed-in user; for a positive id removes that user
     * row and the profile rows owned by the signed-in user (`me`, not `id`);
     * for any other id changes nothing and still answers ok.
     */
    method Delete(id: int, me: int) returns (r: Reply)
      requires Valid()
      modifies this
      ensures Valid() && nextId == old(nextId)
      ensures id == me ==> r == Fail(CannotDeleteSelf) && users == old(users) && profileOwners == old(profileOwners)
      ensures id != me && id <= 0 ==> r == Ok(None) && users == old(users) && profileOwners == old(profileOwners)
      ensures id != me && id > 0 ==>
                && r == Ok(None)
                && users == old(users) - {id}
                && profileOwners == old(profileOwners)[me := 0]
      // The target's own profile rows survive.
      ensures id != me ==> profileOwners[id] == old(profileOwners)[id]
    {
      if me == id {
        return Fail(CannotDeleteSelf);
      }
      if id > 0 {
        users := users - {id};
        profileOwners := profileOwners[me := 0];
      }
      return Ok(None);
    }

    /**
     * login: the captcha check comes first; then the service looks the
     * credentials up and a non-negative id signs that user in. Both the check
     * and the lookup are given as functions.
     */
    method Login(username: Option<string>, password: Option<string>, captcha: Option<string>,
                 sessionCaptcha: Option<string>, session: Session,
                 checkCaptcha: (Option<string>, Option<string>) -> bool,
                 fetch: (Option<string>, Option<string>) -> int)
      returns (r: Reply)
      modifies session
      // A captcha mismatch is answered without consulting the lookup at all.
      ensures !checkCaptcha(sessionCaptcha, captcha) ==> r == Fail(BadCaptcha) && session.me == old(session.me)
      ensures checkCaptcha(sessionCaptcha, captcha) && fetch(username, password) < 0 ==>
                r == Fail(BadCredentials) && session.me == old(session.me)
      ensures checkCaptcha(sessionCaptcha, captcha) && fetch(username, password) >= 0 ==>
                r == Ok(None) && session.me == Some(fetch(username, password))
    {
      if !checkCaptcha(sessionCaptcha, captcha) {
        return Fail(BadCaptcha);
      }
      var userId := fetch(username, password);
      if userId < 0 {
        return Fail(BadCredentials);
      }
      session.me := Some(userId);
      return Ok(None);
    }

    /** logout: the session is invalidated. */
    method Logout(session: Session)
      modifies session
      ensures session.me == None
    {
      session.me := None;
    }

    /**
     * query: the rows the name filter selects (every row for a blank name) and
     * the record count reported with them, which is their number.
     */
    method Query(name: Option<string>) returns (found: set<int>, recordCount: nat)
      ensures forall id :: id in found <==> id in users && Matches(QueryFilter(name), users[id].name)
      ensures IsBlank(name) ==> found == users.Keys
      ensures recordCount == |found|
    {
      var filter := QueryFilter(name);
      found := set id | id in users && Matches(filter, users[id].name);
      recordCount := |found|;
    }
  }
}
