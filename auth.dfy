/** The request guards of the API: the `auth` middleware, which resolves
    the bearer token to an active user, and `checkRole`, which admits only the
    listed roles. Token verification is a lookup in `keyring`, from the tokens
    the server accepts to the user id each one carries. */
module Auth {
  import opened Domain
  import Store
  import Seqs

  const BearerPrefix: string := "Bearer "

  /** `s.replace(pattern, '')` with a string pattern: the first occurrence of
      `pattern` is removed, the rest is left alone. */
  function RemoveFirst(s: string, pattern: string): (r: string)
    requires pattern != []
    ensures |r| <= |s|
    ensures pattern <= s ==> r == s[|pattern|..]
    decreases |s|
  {
    if |s| < |pattern| then s
    else if s[..|pattern|] == pattern then s[|pattern|..]
    else [s[0]] + RemoveFirst(s[1..], pattern)
  }

  /** `pattern` occurs in `s` at position `i`. */
  predicate OccursAt(s: string, pattern: string, i: nat) {
    i + |pattern| <= |s| && s[i..i + |pattern|] == pattern
  }

  /** A string that holds no occurrence of `pattern` is left unchanged, so a
      header without the `Bearer ` prefix is used as the token as it is. */
  lemma {:induction false} RemoveFirstAbsent(s: string, pattern: string)
    requires pattern != []
    requires forall i: nat :: !OccursAt(s, pattern, i)
    ensures RemoveFirst(s, pattern) == s
    decreases |s|
  {
    if |s| >= |pattern| {
      assert !OccursAt(s, pattern, 0);
      forall i: nat ensures !OccursAt(s[1..], pattern, i) {
        assert !OccursAt(s, pattern, i + 1);
        if i + |pattern| <= |s[1..]| {
          assert s[1..][i..i + |pattern|] == s[i + 1..i + 1 + |pattern|];
        }
      }
      RemoveFirstAbsent(s[1..], pattern);
      assert [s[0]] + s[1..] == s;
    }
  }

  /** Only the first occurrence goes, wherever it is: the text before it and
      the text after it are kept. */
  lemma {:induction false} RemoveFirstAt(s: string, pattern: string, i: nat)
    requires pattern != [] && OccursAt(s, pattern, i)
    requires forall j: nat :: j < i ==> !OccursAt(s, pattern, j)
    ensures RemoveFirst(s, pattern) == s[..i] + s[i + |pattern|..]
    decreases i
  {
    if i > 0 {
      assert s[0..|pattern|] == s[..|pattern|] && !OccursAt(s, pattern, 0);
      assert RemoveFirst(s, pattern) == [s[0]] + RemoveFirst(s[1..], pattern);
      OccursShifted(s, pattern, i - 1);
      NoneEarlierInTail(s, pattern, i);
      RemoveFirstAt(s[1..], pattern, i - 1);
      ConsSplit(s, i, i + |pattern|);
    }
  }

  /** An occurrence in the tail of `s` is one place further on in `s`. */
  lemma OccursShifted(s: string, pattern: string, j: nat)
    requires s != []
    ensures OccursAt(s[1..], pattern, j) <==> OccursAt(s, pattern, j + 1)
  {
    if j + |pattern| <= |s[1..]| {
      assert s[1..][j..j + |pattern|] == s[j + 1..j + 1 + |pattern|];
    }
  }

  lemma NoneEarlierInTail(s: string, pattern: string, i: nat)
    requires 0 < i <= |s|
    requires forall j: nat :: j < i ==> !OccursAt(s, pattern, j)
    ensures forall j: nat :: j < i - 1 ==> !OccursAt(s[1..], pattern, j)
  {
    forall j: nat | j < i - 1 ensures !OccursAt(s[1..], pattern, j) {
      OccursShifted(s, pattern, j);
    }
  }

  lemma ConsSplit(s: string, i: nat, k: nat)
    requires 0 < i <= k <= |s|
    ensures [s[0]] + (s[1..][..i - 1] + s[1..][k - 1..]) == s[..i] + s[k..]
  {
    assert s[1..][..i - 1] == s[1..i] && s[1..][k - 1..] == s[k..];
    assert [s[0]] + s[1..i] == s[..i];
  }

  /** The token the middleware reads from the `Authorization` header. */
  function Token(header: string): string {
    RemoveFirst(header, BearerPrefix)
  }

  /** `auth`: a missing or empty token, a token the server does not accept, and
      a token of a missing or deactivated user all answer 401; otherwise the
      request goes on with `req.user` set to the stored user record. */
  function Authenticate(header: Option<string>, keyring: map<string, Id>, users: seq<User>): (r: Outcome<User>)
    ensures r.Err? ==> r.failure == Unauthorized
    ensures r.Ok? <==>
      && header.Some? && Token(header.value) != "" && Token(header.value) in keyring
      && Store.FindUser(users, keyring[Token(header.value)]).Some?
      && Store.FindUser(users, keyring[Token(header.value)]).value.isActive
    ensures r.Ok? ==> r.value in users && r.value.isActive && r.value.id == keyring[Token(header.value)]
  {
    if header.None? then Err(Unauthorized)
    else
      var token := Token(header.value);
      if token == "" || token !in keyring then Err(Unauthorized)
      else
        match Store.FindUser(users, keyring[token])
        case None => Err(Unauthorized)
        case Some(user) => if !user.isActive then Err(Unauthorized) else Ok(user)
  }

  /** A header `Bearer t` presents exactly the token `t`. */
  lemma BearerHeaderToken(t: string)
    ensures Token(BearerPrefix + t) == t
  {
    assert (BearerPrefix + t)[..|BearerPrefix|] == BearerPrefix;
    assert (BearerPrefix + t)[|BearerPrefix|..] == t;
  }

  /** A user whose row says `isActive = false` is refused on every token. */
  lemma {:induction false} InactiveUserRefused(header: Option<string>, keyring: map<string, Id>, users: seq<User>, k: nat)
    requires k < |users| && !users[k].isActive
    requires Seqs.Increasing(users, Store.UserId)
    requires header.Some? && Token(header.value) in keyring && keyring[Token(header.value)] == users[k].id
    ensures Authenticate(header, keyring, users) == Err(Unauthorized)
  {
    var r := Store.FindUser(users, users[k].id);
    if r.Some? {
      var i := Store.UserIndex(users, users[k].id);
      Seqs.IncreasingUnique(users, Store.UserId, i, k);
    }
  }

  /** `checkRole(...roles)`. */
  predicate Permits(roles: seq<Role>, actor: User) {
    actor.role in roles
  }

  /** `auth` followed by `checkRole(...roles)`: the request reaches the handler
      exactly when the token belongs to an active user whose role is listed.
      Authentication is decided first, so an unauthenticated request answers
      401 even when its role would also be refused. */
  function Guard(header: Option<string>, keyring: map<string, Id>, users: seq<User>, roles: seq<Role>): (r: Outcome<User>)
    ensures r.Ok? <==> Authenticate(header, keyring, users).Ok? && Authenticate(header, keyring, users).value.role in roles
    ensures r.Ok? ==> r.value.isActive && r.value.role in roles && r.value in users
    ensures Authenticate(header, keyring, users).Err? ==> r == Err(Unauthorized)
    ensures Authenticate(header, keyring, users).Ok? && r.Err? ==> r.failure == Forbidden
  {
    match Authenticate(header, keyring, users)
    case Err(f) => Err(f)
    case Ok(user) => if Permits(roles, user) then Ok(user) else Err(Forbidden)
  }
}
