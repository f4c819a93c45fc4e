/** Request gates (backend/src/middleware/authMiddleware.js): taking the
    bearer token from the `Authorization` header (`protect`), the admin
    gate (`admin`) and the premium paywall (`checkLicense`), which demotes
    an expired subscription as it denies it.

    Whether `jwt.verify` accepts a token, and which account id it decodes,
    is the `verify` parameter; the clock is `now`. */
module AuthMiddleware {
  import opened Common
  import opened UserModel
  import opened Store

  // ---------------------------------------------------- String.split

  /** `s.split(sep)` for a one-character separator: the pieces between the
      separators, empty pieces included; never an empty list. */
  function Split(s: string, sep: char): (r: seq<string>)
    ensures |r| >= 1
    ensures forall i :: 0 <= i < |r| ==> sep !in r[i]
    ensures |r| == 1 <==> sep !in s
    decreases |s|
  {
    if |s| == 0 then [""]
    else if s[0] == sep then [""] + Split(s[1..], sep)
    else
      var rest := Split(s[1..], sep);
      [[s[0]] + rest[0]] + rest[1..]
  }

  /** `parts.join(sep)`. */
  function Join(parts: seq<string>, sep: char): string
    decreases |parts|
  {
    if |parts| == 0 then ""
    else if |parts| == 1 then parts[0]
    else parts[0] + [sep] + Join(parts[1..], sep)
  }

  /** Prepending a character to the first piece prepends it to the join. */
  lemma JoinPrepend(c: char, parts: seq<string>, sep: char)
    requires |parts| >= 1
    ensures Join([[c] + parts[0]] + parts[1..], sep) == [c] + Join(parts, sep)
  {
    var pieces := [[c] + parts[0]] + parts[1..];
    if |parts| > 1 {
      assert pieces[1..] == parts[1..];
    }
  }

  /** Splitting loses nothing: joining the pieces gives the string back. */
  lemma {:induction false} JoinOfSplit(s: string, sep: char)
    ensures Join(Split(s, sep), sep) == s
    decreases |s|
  {
    if |s| == 0 {
    } else if s[0] == sep {
      JoinOfSplit(s[1..], sep);
      var rest := Split(s[1..], sep);
      assert ([""] + rest)[1..] == rest;
      assert s == [sep] + s[1..];
    } else {
      JoinOfSplit(s[1..], sep);
      var rest := Split(s[1..], sep);
      assert Split(s, sep) == [[s[0]] + rest[0]] + rest[1..];
      JoinPrepend(s[0], rest, sep);
      assert s == [s[0]] + s[1..];
    }
  }

  /** Joining pieces that contain no separator and splitting again gives
      the same pieces. */
  lemma {:induction false} SplitOfJoin(parts: seq<string>, sep: char)
    requires |parts| >= 1
    requires forall i :: 0 <= i < |parts| ==> sep !in parts[i]
    ensures Split(Join(parts, sep), sep) == parts
    decreases |parts|, |parts[0]|
  {
    var p := parts[0];
    if |p| == 0 {
      if |parts| == 1 {
      } else {
        var s := Join(parts, sep);
        assert s == [sep] + Join(parts[1..], sep);
        assert s[1..] == Join(parts[1..], sep);
        SplitOfJoin(parts[1..], sep);
        assert parts == [""] + parts[1..];
      }
    } else {
      var shorter := [p[1..]] + parts[1..];
      assert forall i :: 0 <= i < |shorter| ==> sep !in shorter[i] by {
        forall i | 0 <= i < |shorter| ensures sep !in shorter[i] {
          if i == 0 {
            assert forall c :: c in p[1..] ==> c in p;
          } else {
            assert shorter[i] == parts[i];
          }
        }
      }
      SplitOfJoin(shorter, sep);
      assert [[p[0]] + shorter[0]] + shorter[1..] == parts by {
        assert [p[0]] + p[1..] == p;
        assert shorter[1..] == parts[1..];
      }
      JoinPrepend(p[0], shorter, sep);
      var s := Join(parts, sep);
      assert s == [p[0]] + Join(shorter, sep);
      assert s[0] != sep && s[1..] == Join(shorter, sep);
    }
  }

  // --------------------------------------------------------- protect

  /** `authorization && authorization.startsWith('Bearer')`. */
  predicate IsBearer(authorization: Option<string>) {
    Truthy(authorization) && "Bearer" <= authorization.value
  }

  /** The token `protect` hands to `jwt.verify`: the second space-separated
      piece of a bearer header, when there is one and it is not empty
      (anything else makes `jwt.verify` throw). It is the word between the
      first and second spaces of the header. */
  function BearerToken(authorization: Option<string>): (r: Option<string>)
    ensures r.Some? ==> IsBearer(authorization)
    ensures r.Some? ==>
      var pieces := Split(authorization.value, ' ');
      var rest := if |pieces| > 2 then " " + Join(pieces[2..], ' ') else "";
      && authorization.value == pieces[0] + " " + r.value + rest
      && r.value != "" && ' ' !in r.value && ' ' !in pieces[0]
  {
    if !IsBearer(authorization) then None
    else
      var pieces := Split(authorization.value, ' ');
      if |pieces| < 2 || pieces[1] == "" then None
      else
        JoinOfSplit(authorization.value, ' ');
        Some(pieces[1])
  }

  /** The outcomes of `protect`: continue with `req.user` (no account when
      the decoded id matches none), 401 'token fallido', or 401 'no hay
      token'. */
  datatype ProtectResult = Proceed(caller: Option<UserId>) | TokenFailed | NoToken

  function ProtectHttpStatus(r: ProtectResult): Option<int> {
    if r.Proceed? then None else Some(401)
  }

  /** `protect`: no bearer header means no token; a bearer header whose
      token is missing or refused by `verify` fails; otherwise the request
      proceeds with the account the token names, looked up in the store. */
  function Protect(db: Db, authorization: Option<string>, verify: string -> Option<UserId>): (r: ProtectResult)
    ensures r == NoToken <==> !IsBearer(authorization)
    ensures r.Proceed? <==> BearerToken(authorization).Some? && verify(BearerToken(authorization).value).Some?
    ensures r.Proceed? && r.caller.Some? ==> r.caller.value in db.users
    ensures r.Proceed? ==>
      var id := verify(BearerToken(authorization).value).value;
      r.caller == (if id in db.users then Some(id) else None)
  {
    if !IsBearer(authorization) then NoToken
    else match BearerToken(authorization)
      case None => TokenFailed
      case Some(token) =>
        match verify(token)
        case None => TokenFailed
        case Some(id) => Proceed(if id in db.users then Some(id) else None)
  }

  /** Splitting at the first separator: the piece before it, then the
      pieces of the rest. */
  lemma {:induction false} SplitAtFirst(a: string, b: string, sep: char)
    requires sep !in a
    ensures Split(a + [sep] + b, sep) == [a] + Split(b, sep)
    decreases |a|
  {
    var s := a + [sep] + b;
    if |a| == 0 {
      assert s == [sep] + b;
      assert s[1..] == b;
    } else {
      assert s[0] == a[0] && a[0] != sep;
      assert s[1..] == a[1..] + [sep] + b;
      assert sep !in a[1..] by {
        assert forall c :: c in a[1..] ==> c in a;
      }
      SplitAtFirst(a[1..], b, sep);
      assert [a[0]] + a[1..] == a;
    }
  }

  /** A string without the separator is a single piece. */
  lemma SplitWithoutSeparator(a: string, sep: char)
    requires sep !in a
    ensures Split(a, sep) == [a]
  {
    JoinOfSplit(a, sep);
  }

  /** A header `Bearer <token>`, followed by nothing or by a space and
      anything at all, yields exactly that token. */
  lemma BearerHeaderYieldsToken(token: string, rest: string)
    requires token != "" && ' ' !in token
    requires |rest| == 0 || rest[0] == ' '
    ensures BearerToken(Some("Bearer " + token + rest)) == Some(token)
  {
    var h := "Bearer " + token + rest;
    assert "Bearer" <= h;
    assert h == "Bearer" + [' '] + (token + rest);
    SplitAtFirst("Bearer", token + rest, ' ');
    if |rest| == 0 {
      assert token + rest == token;
      SplitWithoutSeparator(token, ' ');
    } else {
      assert token + rest == token + [' '] + rest[1..];
      SplitAtFirst(token, rest[1..], ' ');
    }
  }

  /** An absent header, or one not starting with 'Bearer', is 401 'no hay
      token'; a bearer header is never answered that way. */
  lemma ProtectWithoutBearer(db: Db, authorization: Option<string>, verify: string -> Option<UserId>)
    ensures Protect(db, None, verify) == NoToken
    ensures authorization.Some? && !("Bearer" <= authorization.value) ==> Protect(db, authorization, verify) == NoToken
    ensures ProtectHttpStatus(NoToken) == Some(401)
  {
  }

  /** A bare 'Bearer' header carries no token: it fails verification. */
  lemma ProtectBareBearer(db: Db, verify: string -> Option<UserId>)
    ensures Protect(db, Some("Bearer"), verify) == TokenFailed
  {
    assert ' ' !in "Bearer";
    assert |Split("Bearer", ' ')| == 1;
  }

  /** Two spaces after 'Bearer' leave an empty second piece: it fails too. */
  lemma ProtectDoubleSpace(db: Db, token: string, verify: string -> Option<UserId>)
    requires ' ' !in token
    ensures Protect(db, Some("Bearer  " + token), verify) == TokenFailed
  {
    var parts := ["Bearer", "", token];
    assert Join(parts, ' ') == "Bearer  " + token by {
      assert Join(parts[2..], ' ') == token;
      assert Join(parts[1..], ' ') == " " + token;
    }
    SplitOfJoin(parts, ' ');
  }

  // ----------------------------------------------------------- admin

  /** The `req.user` that `protect` attached, as an account: the stored
      record for the caller id, none when there is no id or no such account. */
  function RequestUser(db: Db, caller: Option<UserId>): (u: Option<User>)
    ensures u.Some? <==> caller.Some? && caller.value in db.users
    ensures u.Some? ==> u.value == db.users[caller.value]
  {
    if caller.Some? && caller.value in db.users then Some(db.users[caller.value]) else None
  }

  /** For a verified token, the request carries the stored account of the id
      the token decodes to (`User.findById(decoded.id)`), and none when no
      account has that id. */
  lemma ProtectAttachesDecodedAccount(db: Db, authorization: Option<string>, verify: string -> Option<UserId>)
    requires BearerToken(authorization).Some? && verify(BearerToken(authorization).value).Some?
    ensures Protect(db, authorization, verify).Proceed?
    ensures var id := verify(BearerToken(authorization).value).value;
      RequestUser(db, Protect(db, authorization, verify).caller) ==
        (if id in db.users then Some(db.users[id]) else None)
  {
  }

  /** `admin`: passes when the request carries an account with the admin role. */
  function AdminGate(user: Option<User>): bool {
    user.Some? && user.value.role == Admin
  }

  /** The gate passes exactly for the accounts whose `permissions` allow
      modifying content; without an account it answers 403. */
  lemma AdminGateIsCanModify(user: Option<User>)
    ensures AdminGate(user) <==> user.Some? && PermissionsOf(user.value).canModify
    ensures !AdminGate(None)
  {
  }

  // ---------------------------------------------------- checkLicense

  /** The outcomes of `checkLicense`: continue; 403 with `upgrade: true`;
      403 with `expired: true` and the expiry date. */
  datatype LicenseDecision = Granted | UpgradeRequired | SubscriptionExpired(expiredOn: int)

  function LicenseHttpStatus(d: LicenseDecision): Option<int> {
    if d.Granted? then None else Some(403)
  }

  /** `checkLicense`: admins pass; otherwise an account with premium status
      is required; one without expiry passes; one whose expiry is strictly
      before `now` is written back as free and denied; the rest pass. */
  function CheckLicenseSpec(db: Db, caller: Option<UserId>, now: int): Outcome<LicenseDecision> {
    var user := RequestUser(db, caller);
    if user.Some? && user.value.role == Admin then Outcome(Granted, db)
    else if user.None? || user.value.subscriptionStatus != Premium then Outcome(UpgradeRequired, db)
    else if user.value.subscriptionExpiry.None? then Outcome(Granted, db)
    else if user.value.subscriptionExpiry.value < now then
      Outcome(SubscriptionExpired(user.value.subscriptionExpiry.value),
              SetUser(db, caller.value, user.value.(subscriptionStatus := Free)))
    else Outcome(Granted, db)
  }

  /** The gate against the store: the demotion is the one write. */
  method CheckLicense(store: Database, caller: Option<UserId>, now: int) returns (d: LicenseDecision)
    requires store.Valid()
    modifies store
    ensures store.Valid()
    ensures Outcome(d, store.Snapshot()) == CheckLicenseSpec(old(store.Snapshot()), caller, now)
  {
    var user := RequestUser(store.Snapshot(), caller);
    if user.Some? && user.value.role == Admin {
      return Granted;
    }
    if user.None? || user.value.subscriptionStatus != Premium {
      return UpgradeRequired;
    }
    var expiry := user.value.subscriptionExpiry;
    if expiry.None? {
      return Granted;
    }
    if expiry.value < now {
      store.SaveUser(caller.value, user.value.(subscriptionStatus := Free));
      return SubscriptionExpired(expiry.value);
    }
    d := Granted;
  }

  /** Admins pass with no write, whatever their subscription says. */
  lemma CheckLicenseAdminBypass(db: Db, caller: Option<UserId>, now: int)
    requires caller.Some? && caller.value in db.users && db.users[caller.value].role == Admin
    ensures CheckLicenseSpec(db, caller, now) == Outcome(Granted, db)
  {
  }

  /** No account, or a status other than premium (for a non-admin), is a
      403 with `upgrade` and no write. */
  lemma CheckLicenseRequiresPremium(db: Db, caller: Option<UserId>, now: int)
    requires RequestUser(db, caller).None? ||
             (RequestUser(db, caller).value.role != Admin && RequestUser(db, caller).value.subscriptionStatus != Premium)
    ensures CheckLicenseSpec(db, caller, now) == Outcome(UpgradeRequired, db)
    ensures LicenseHttpStatus(UpgradeRequired) == Some(403)
  {
  }

  /** For a premium non-admin: no expiry passes; an expiry strictly before
      `now` (and only then) is denied as expired and demotes exactly that
      account to free; an expiry at or after `now` passes with no write. */
  lemma CheckLicenseExpiry(db: Db, id: UserId, now: int)
    requires id in db.users && db.users[id].role != Admin && db.users[id].subscriptionStatus == Premium
    ensures var o := CheckLicenseSpec(db, Some(id), now);
      var expiry := db.users[id].subscriptionExpiry;
      && (expiry.None? ==> o == Outcome(Granted, db))
      && (expiry.Some? && expiry.value < now ==>
            && o.response == SubscriptionExpired(expiry.value)
            && o.db == db.(users := db.users[id := db.users[id].(subscriptionStatus := Free)]))
      && (expiry.Some? && now <= expiry.value ==> o == Outcome(Granted, db))
  {
  }

  /** The gate never promotes: its only possible write turns one premium
      account into a free one and leaves every other field and collection
      as it was. */
  lemma CheckLicenseNeverPromotes(db: Db, caller: Option<UserId>, now: int)
    ensures var o := CheckLicenseSpec(db, caller, now).db;
      && o.users.Keys == db.users.Keys
      && o.byEmail == db.byEmail && o.ledger == db.ledger && o.events == db.events && o.nextId == db.nextId
      && (forall id :: id in db.users ==>
            o.users[id] == db.users[id] ||
            (db.users[id].subscriptionStatus == Premium && o.users[id] == db.users[id].(subscriptionStatus := Free)))
    ensures DbValid(db) ==> DbValid(CheckLicenseSpec(db, caller, now).db)
  {
  }

  /** Whoever passes may view premium content by their `permissions`. */
  lemma CheckLicenseGrantImpliesPermission(db: Db, caller: Option<UserId>, now: int)
    requires CheckLicenseSpec(db, caller, now).response == Granted
    ensures RequestUser(db, caller).Some?
    ensures PermissionsOf(RequestUser(db, caller).value).canViewPremium
  {
  }

  /** A demotion sticks: the next check of the same account, at any time,
      asks for an upgrade and writes nothing. */
  lemma {:induction false} CheckLicenseDemotionSticks(db: Db, caller: Option<UserId>, now: int, later: int)
    requires CheckLicenseSpec(db, caller, now).response.SubscriptionExpired?
    ensures var db1 := CheckLicenseSpec(db, caller, now).db;
      CheckLicenseSpec(db1, caller, later) == Outcome(UpgradeRequired, db1)
  {
    var db1 := CheckLicenseSpec(db, caller, now).db;
    assert db1.users[caller.value].subscriptionStatus == Free;
    assert db1.users[caller.value].role == db.users[caller.value].role;
  }
}
