// The sign-in page (src/pages/Login.tsx): the phone and referral-code
// input rules, the phone check before sending a one-time code, and the
// registration of a new user document with zeroed balances.
module LoginPage {
  import opened Types
  import opened LedgerStore
  import opened Server

  predicate IsDigit(c: char)
  {
    '0' <= c <= '9'
  }

  /** The phone input keeps the ASCII digits of what is typed, in order. */
  function DigitsOnly(raw: string): (r: string)
    ensures |r| <= |raw|
    ensures forall i :: 0 <= i < |r| ==> IsDigit(r[i])
    ensures forall c :: IsDigit(c) ==> multiset(r)[c] == multiset(raw)[c]
    ensures (forall i :: 0 <= i < |raw| ==> IsDigit(raw[i])) ==> r == raw
    ensures |raw| == 1 ==> r == if IsDigit(raw[0]) then raw else []
  {
    if raw == [] then []
    else
      assert raw == [raw[0]] + raw[1..];
      (if IsDigit(raw[0]) then [raw[0]] else []) + DigitsOnly(raw[1..])
  }

  /** The filter works character by character, so the digits keep the
      order in which they were typed. */
  lemma {:induction false} DigitsOnlyAppend(a: string, b: string)
    ensures DigitsOnly(a + b) == DigitsOnly(a) + DigitsOnly(b)
  {
    if a == [] {
      assert a + b == b;
    } else {
      assert (a + b)[0] == a[0];
      assert (a + b)[1..] == a[1..] + b;
      DigitsOnlyAppend(a[1..], b);
    }
  }

  /** Filtering twice is filtering once. */
  lemma DigitsOnlyIdempotent(raw: string)
    ensures DigitsOnly(DigitsOnly(raw)) == DigitsOnly(raw)
  {
  }

  /** A one-time code is sent only for a phone of exactly ten characters. */
  predicate SendOtpAllowed(phone: string)
  {
    |phone| == 10
  }

  /** What the input can send: exactly ten digits, all of them typed. */
  lemma SentPhoneIsTenDigits(raw: string)
    requires SendOtpAllowed(DigitsOnly(raw))
    ensures var p := DigitsOnly(raw);
      |p| == 10 && (forall i :: 0 <= i < 10 ==> IsDigit(p[i])) && multiset(p) <= multiset(raw)
  {
    var p := DigitsOnly(raw);
    forall c ensures multiset(p)[c] <= multiset(raw)[c]
    {
      if !IsDigit(c) {
        assert c !in p;
      }
    }
  }

  function UpperChar(c: char): char
  {
    if 'a' <= c <= 'z' then (c as int - 'a' as int + 'A' as int) as char else c
  }

  /** The referral input is upper-cased as typed (ASCII letters only). */
  function UpperAscii(s: string): (r: string)
    ensures |r| == |s|
    ensures forall i :: 0 <= i < |r| ==> !('a' <= r[i] <= 'z')
    ensures forall i :: 0 <= i < |s| && !('a' <= s[i] <= 'z') ==> r[i] == s[i]
    ensures forall i :: 0 <= i < |s| && 'a' <= s[i] <= 'z' ==> r[i] as int == s[i] as int - 32
  {
    seq(|s|, i requires 0 <= i < |s| => UpperChar(s[i]))
  }

  lemma UpperAsciiIdempotent(s: string)
    ensures UpperAscii(UpperAscii(s)) == UpperAscii(s)
  {
  }

  /** The document written for a newly registered user. */
  function NewUser(phone: string, name: string, referral: string, code: string, now: Millis): (u: UserProfile)
    ensures u.phone == phone && u.name == name && u.referralCode == code && u.createdAt == now
    ensures u.rechargeWallet == 0.0 && u.mainBalance == 0.0 && u.totalWithdraw == 0.0
    ensures !u.isAdmin && u.status == AccountActive
    ensures u.referredBy == if referral == "" then None else Some(referral)
    ensures u.lastLoginIp.None? && u.deviceId.None?
  {
    UserProfile(phone, name, 0.0, 0.0, 0.0, code, if referral == "" then None else Some(referral),
                AccountActive, false, now, None, None)
  }

  predicate PhoneRegistered(users: map<Uid, UserProfile>, phone: string)
  {
    exists v :: v in users && users[v].phone == phone
  }

  /** The register handler. `current` is the signed-in account, if any,
      and `code` the freshly generated referral code, which is assumed
      not to be held by anyone yet. The document is written under the
      account's uid and replaces any document already there. */
  function Register(s: Store, current: Option<Uid>, name: string, phone: string, referral: string,
                    code: string, now: Millis): (r: (Store, Outcome))
    requires Valid(s)
    requires forall v :: v in s.users ==> s.users[v].referralCode != code
    ensures Valid(r.0)
    ensures r.1 == Refused(NameRequired) <==> name == ""
    ensures r.1 == Refused(NotSignedIn) <==> name != "" && current.None?
    ensures r.1 == Refused(PhoneTaken) <==> name != "" && current.Some? && PhoneRegistered(s.users, phone)
    ensures r.1 == Ok <==> name != "" && current.Some? && !PhoneRegistered(s.users, phone)
    ensures r.1 != Ok ==> r.0 == s
    ensures r.1 == Ok ==>
      && r.0.users == s.users[current.value := NewUser(phone, name, referral, code, now)]
      && r.0.transactions == s.transactions && r.0.investments == s.investments
      && r.0.nextTxId == s.nextTxId && r.0.nextInvId == s.nextInvId
    ensures Solvent(s) ==> Solvent(r.0)
  {
    if name == "" then (s, Refused(NameRequired))
    else if current.None? then (s, Refused(NotSignedIn))
    else if PhoneRegistered(s.users, phone) then (s, Refused(PhoneTaken))
    else (s.(users := s.users[current.value := NewUser(phone, name, referral, code, now)]), Ok)
  }

  /** No two users share a phone. */
  predicate UniquePhones(users: map<Uid, UserProfile>)
  {
    forall u, v :: u in users && v in users && users[u].phone == users[v].phone ==> u == v
  }

  /** Registration keeps phones unique. */
  lemma RegisterKeepsPhonesUnique(s: Store, current: Option<Uid>, name: string, phone: string, referral: string,
                                  code: string, now: Millis)
    requires Valid(s) && UniquePhones(s.users)
    requires forall v :: v in s.users ==> s.users[v].referralCode != code
    ensures UniquePhones(Register(s, current, name, phone, referral, code, now).0.users)
  {
    var r := Register(s, current, name, phone, referral, code, now);
    if r.1 == Ok {
      var users := r.0.users;
      forall u, v | u in users && v in users && users[u].phone == users[v].phone
        ensures u == v
      {
        if u != current.value && v != current.value {
          assert users[u] == s.users[u] && users[v] == s.users[v];
        }
      }
    }
  }

  /** A phone registers once: a second registration with it is refused,
      whoever is signed in and whatever name is given. */
  lemma RegisterTwiceRefused(s: Store, current: Option<Uid>, name: string, phone: string, referral: string,
                             code: string, now: Millis,
                             current2: Option<Uid>, name2: string, referral2: string, code2: string, later: Millis)
    requires Valid(s) && forall v :: v in s.users ==> s.users[v].referralCode != code
    requires Register(s, current, name, phone, referral, code, now).1 == Ok
    requires var s1 := Register(s, current, name, phone, referral, code, now).0;
      forall v :: v in s1.users ==> s1.users[v].referralCode != code2
    requires name2 != "" && current2.Some?
    ensures var s1 := Register(s, current, name, phone, referral, code, now).0;
      Register(s1, current2, name2, phone, referral2, code2, later) == (s1, Refused(PhoneTaken))
  {
    var s1 := Register(s, current, name, phone, referral, code, now).0;
    assert s1.users[current.value].phone == phone;
  }

  /** A newly registered user cannot approve anything. */
  lemma NewUserCannotApprove(s: Store, current: Option<Uid>, name: string, phone: string, referral: string,
                             code: string, now: Millis, txId: DocId, field: Balance, later: Millis)
    requires Valid(s) && forall v :: v in s.users ==> s.users[v].referralCode != code
    requires Register(s, current, name, phone, referral, code, now).1 == Ok
    ensures var s1 := Register(s, current, name, phone, referral, code, now).0;
      Approve(s1, txId, current.value, field, later) == (s1, Unauthorized)
  {
  }

  /** A new user who entered an existing user's code is that user's
      referee: the profit pass's lookup finds the code's holder. */
  lemma RegisteredReferralResolves(s: Store, current: Option<Uid>, name: string, phone: string, referral: string,
                                   code: string, now: Millis, holder: Uid)
    requires Valid(s) && forall v :: v in s.users ==> s.users[v].referralCode != code
    requires Register(s, current, name, phone, referral, code, now).1 == Ok
    requires holder in s.users && holder != current.value && s.users[holder].referralCode == referral
    requires referral != ""
    ensures var s1 := Register(s, current, name, phone, referral, code, now).0;
      Referrer(s1.users, current.value) == Some(holder)
  {
    var s1 := Register(s, current, name, phone, referral, code, now).0;
    assert s1.users[holder].referralCode == referral;
  }
}
