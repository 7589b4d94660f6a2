/** The sign-up page (src/pages/signup.tsx): name capitalisation, the submit guards and the admin
    record a sign-up writes, the submit button's disabled rule, and where a visitor who already
    has a session is sent. */
module Signup {
  import opened Basics
  import opened Text

  // ---- Name capitalisation ----

  /** The number of white-space characters in a row from `i`. */
  function SpaceRun(t: string, i: nat): (n: nat)
    requires i <= |t|
    ensures i + n <= |t|
    ensures forall k :: i <= k < i + n ==> IsSpace(t[k])
    ensures i + n == |t| || !IsSpace(t[i + n])
    decreases |t| - i
  {
    if i < |t| && IsSpace(t[i]) then 1 + SpaceRun(t, i + 1) else 0
  }

  /** The length of the match of `(^\w{1})|(\s+\w{1})` found at `i`, if any: a word character at
      the very start, or a white-space run followed by a word character (the greedy run cannot
      give back a character and still be followed by a word character). */
  function MatchAt(t: string, i: nat): (m: Option<nat>)
    requires i < |t|
    ensures m.Some? ==> 1 <= m.value && i + m.value <= |t| && IsWordChar(t[i + m.value - 1])
    ensures m.Some? ==> forall k :: i <= k < i + m.value - 1 ==> IsSpace(t[k])
    ensures m == Some(1) ==> i == 0
  {
    if i == 0 && IsWordChar(t[0]) then Some(1)
    else
      var n := SpaceRun(t, i);
      if n > 0 && i + n < |t| && IsWordChar(t[i + n]) then Some(n + 1) else None
  }

  /** `toUpperCase()` on a matched piece: white space is left alone. */
  function UpperChar(c: char): char {
    if IsWordChar(c) then UpperWordChar(c) else c
  }

  function Upper(s: string): (r: string)
    ensures |r| == |s|
    ensures forall k :: 0 <= k < |s| ==> r[k] == UpperChar(s[k])
  {
    seq(|s|, k requires 0 <= k < |s| => UpperChar(s[k]))
  }

  /** `replace` with the global regular expression, scanning from `i`: each match is replaced by
      its upper-case form and the scan resumes after it; elsewhere one character is copied. */
  function ReplaceFrom(t: string, i: nat): (r: string)
    requires i <= |t|
    ensures |r| == |t| - i
    decreases |t| - i
  {
    if i == |t| then []
    else match MatchAt(t, i)
      case Some(n) => Upper(t[i..i + n]) + ReplaceFrom(t, i + n)
      case None => [t[i]] + ReplaceFrom(t, i + 1)
  }

  /** `name.trim().replace(/(^\w{1})|(\s+\w{1})/g, (letter) => letter.toUpperCase())`. */
  function Capitalize(s: string): string {
    ReplaceFrom(Trim(s), 0)
  }

  /** A word character that starts the string or follows white space. */
  predicate StartsWord(t: string, k: nat)
    requires k < |t|
  {
    IsWordChar(t[k]) && (k == 0 || IsSpace(t[k - 1]))
  }

  /** What the scan from `i` leaves at position `k`: upper-cased when it is a word character at
      the very start or after white space that lies at or after `i`, otherwise as it was. */
  function ScanChar(t: string, i: nat, k: nat): char
    requires i <= k < |t|
  {
    if IsWordChar(t[k]) && (k == 0 || (k > i && IsSpace(t[k - 1]))) then UpperWordChar(t[k]) else t[k]
  }

  lemma WordNotSpace(c: char)
    requires IsWordChar(c)
    ensures !IsSpace(c)
  {
  }

  /** A match is replaced by what the scan leaves there. */
  lemma MatchPiece(t: string, i: nat, n: nat, k: nat)
    requires i < |t| && MatchAt(t, i) == Some(n) && i <= k < i + n
    ensures Upper(t[i..i + n])[k - i] == ScanChar(t, i, k)
  {
    if k < i + n - 1 {
      assert IsSpace(t[k]);
      if IsWordChar(t[k]) {
        WordNotSpace(t[k]);
      }
    } else if n > 1 {
      assert IsSpace(t[k - 1]);
    }
  }

  /** Moving the scan's start from `i` to `m` changes nothing after `m`, nor at `m` itself when
      the character before `m` is not white space or `m` is no word character. */
  lemma ScanCharShift(t: string, i: nat, m: nat, k: nat)
    requires i <= m <= k < |t|
    requires k == m && m > i ==> !IsSpace(t[m - 1]) || !IsWordChar(t[m])
    ensures ScanChar(t, m, k) == ScanChar(t, i, k)
  {
  }

  /** `r` holds, at each position from `i` on, what the scan leaves there. */
  predicate ScansAs(t: string, i: nat, r: string)
    requires i <= |t|
  {
    |r| == |t| - i && forall j :: 0 <= j < |r| ==> r[j] == ScanChar(t, i, i + j)
  }

  /** The step of the scan at a match: the upper-cased match followed by a correct scan after it. */
  lemma MatchStep(t: string, i: nat, n: nat, rest: string)
    requires i < |t| && MatchAt(t, i) == Some(n) && ScansAs(t, i + n, rest)
    ensures ScansAs(t, i, Upper(t[i..i + n]) + rest)
  {
    var piece := Upper(t[i..i + n]);
    var r := piece + rest;
    WordNotSpace(t[i + n - 1]);
    forall j | 0 <= j < |r|
      ensures r[j] == ScanChar(t, i, i + j)
    {
      if j < n {
        MatchPiece(t, i, n, i + j);
        assert r[j] == piece[(i + j) - i];
      } else {
        assert r[j] == rest[j - n];
        ScanCharShift(t, i, i + n, i + j);
      }
    }
  }

  /** The step of the scan where nothing matches: the character copied, then a correct scan. */
  lemma NoMatchStep(t: string, i: nat, rest: string)
    requires i < |t| && MatchAt(t, i) == None && ScansAs(t, i + 1, rest)
    ensures ScansAs(t, i, [t[i]] + rest)
  {
    var r := [t[i]] + rest;
    assert !(i == 0 && IsWordChar(t[0]));
    if i + 1 < |t| && IsSpace(t[i]) {
      assert SpaceRun(t, i) >= 1;
      assert !IsWordChar(t[i + 1]);
    }
    forall j | 0 <= j < |r|
      ensures r[j] == ScanChar(t, i, i + j)
    {
      if j > 0 {
        assert r[j] == rest[j - 1];
        ScanCharShift(t, i, i + 1, i + j);
      }
    }
  }

  /** From `i` on, the scan leaves `ScanChar` at every position. */
  lemma {:induction false} ReplaceFromPointwise(t: string, i: nat)
    requires i <= |t|
    ensures ScansAs(t, i, ReplaceFrom(t, i))
    decreases |t| - i
  {
    if i < |t| {
      match MatchAt(t, i)
      case Some(n) =>
        ReplaceFromPointwise(t, i + n);
        MatchStep(t, i, n, ReplaceFrom(t, i + n));
      case None =>
        ReplaceFromPointwise(t, i + 1);
        NoMatchStep(t, i, ReplaceFrom(t, i + 1));
    }
  }

  /** The capitalised name has the trimmed name's length; a character is upper-cased exactly when
      it is a word character that starts the name or follows white space, and every other
      character is kept. */
  lemma CapitalizePointwise(s: string)
    ensures var t := Trim(s); var r := Capitalize(s);
      |r| == |t| &&
      forall k :: 0 <= k < |t| ==> r[k] == (if StartsWord(t, k) then UpperWordChar(t[k]) else t[k])
  {
    var t := Trim(s);
    ReplaceFromPointwise(t, 0);
    forall k | 0 <= k < |t|
      ensures ScanChar(t, 0, k) == (if StartsWord(t, k) then UpperWordChar(t[k]) else t[k])
    {
    }
  }

  /** Upper-casing keeps a word character a word character, and doing it twice is doing it once. */
  lemma UpperWordCharStable(c: char)
    requires IsWordChar(c)
    ensures !IsSpace(UpperWordChar(c)) && !IsSpace(c)
    ensures UpperWordChar(UpperWordChar(c)) == UpperWordChar(c)
  {
  }

  /** Capitalising keeps every character's class: white space stays white space, word characters
      stay word characters. */
  lemma CapitalizeKeepsClasses(s: string)
    ensures var t := Trim(s); var c := Capitalize(s);
      |c| == |t| &&
      forall k :: 0 <= k < |t| ==> (IsSpace(c[k]) <==> IsSpace(t[k])) && (IsWordChar(c[k]) <==> IsWordChar(t[k]))
  {
    var t := Trim(s);
    var c := Capitalize(s);
    CapitalizePointwise(s);
    forall k | 0 <= k < |t|
      ensures (IsSpace(c[k]) <==> IsSpace(t[k])) && (IsWordChar(c[k]) <==> IsWordChar(t[k]))
    {
      if StartsWord(t, k) {
        UpperWordCharStable(t[k]);
      }
    }
  }

  /** Capitalising an already capitalised name changes nothing. */
  lemma CapitalizeIdempotent(s: string)
    ensures Capitalize(Capitalize(s)) == Capitalize(s)
  {
    var t := Trim(s);
    var c := Capitalize(s);
    CapitalizeKeepsClasses(s);
    if c != [] {
      assert !IsSpace(c[0]) && !IsSpace(c[|c| - 1]);
    }
    TrimOfTrimmed(c);
    CapitalizePointwise(s);
    CapitalizePointwise(c);
    forall k | 0 <= k < |c|
      ensures Capitalize(c)[k] == c[k]
    {
      assert StartsWord(c, k) <==> StartsWord(t, k);
      if StartsWord(t, k) {
        UpperWordCharStable(t[k]);
      }
    }
  }

  /** Every word after white space gets a capital. */
  lemma CapitalizeExampleWords()
    ensures Capitalize("a b") == "A B"
  {
    var t := "a b";
    assert !IsSpace(t[0]) && !IsSpace(t[2]);
    TrimOfTrimmed(t);
    CapitalizePointwise(t);
    var r := Capitalize(t);
    assert StartsWord(t, 0) && !StartsWord(t, 1) && StartsWord(t, 2);
    assert UpperWordChar('a') == 'A' && UpperWordChar('b') == 'B';
    assert r[0] == 'A' && r[1] == ' ' && r[2] == 'B';
  }

  /** A letter after a dash does not follow white space and stays as it was. */
  lemma CapitalizeExampleDash()
    ensures Capitalize("a-b") == "A-b"
  {
    var t := "a-b";
    assert !IsSpace(t[0]) && !IsSpace(t[2]);
    TrimOfTrimmed(t);
    CapitalizePointwise(t);
    var r := Capitalize(t);
    assert StartsWord(t, 0) && !StartsWord(t, 1) && !StartsWord(t, 2);
    assert UpperWordChar('a') == 'A';
    assert r[0] == 'A' && r[1] == '-' && r[2] == 'b';
  }

  // ---- The submit ----

  datatype Credentials = Credentials(firstName: string, lastName: string, email: string,
                                     password: string, confirmPassword: string)

  /** A document of the `admins` collection. */
  datatype AdminRecord = AdminRecord(
    docId: string, accountType: string, uuid: string, email: string,
    firstName: string, lastName: string, password: string, photoUrl: string,
    elections: seq<string>, createdAt: int, updatedAt: int, emailVerified: bool, uid: Option<string>)

  const PasswordMismatchMessage := "Passwords do not match"
  const AdminExistsMessage := "Admin already exists"

  /** Whether an admin with that e-mail is on record. */
  predicate AdminExists(admins: seq<AdminRecord>, email: string) {
    exists k :: 0 <= k < |admins| && admins[k].email == email
  }

  /** The document `addDoc` writes, with the id the store gives it. */
  function NewAdmin(c: Credentials, docId: string, uuid: string, now: int): AdminRecord {
    AdminRecord(docId, "admin", uuid, c.email, Capitalize(c.firstName), Capitalize(c.lastName),
                c.password, "", [], now, now, false, None)
  }

  /** The admins collection and the error shown after a submit. */
  function SubmitResult(admins: seq<AdminRecord>, c: Credentials, docId: string, uuid: string, now: int)
    : (seq<AdminRecord>, Option<string>)
  {
    if c.password != c.confirmPassword then (admins, Some(PasswordMismatchMessage))
    else if AdminExists(admins, c.email) then (admins, Some(AdminExistsMessage))
    else (admins + [NewAdmin(c, docId, uuid, now).(uid := Some(docId))], None)
  }

  /** A password mismatch is reported whatever the store holds, and nothing is written; an
      e-mail already on record is reported and nothing is written. */
  lemma SubmitRefusals(admins: seq<AdminRecord>, c: Credentials, docId: string, uuid: string, now: int)
    ensures c.password != c.confirmPassword ==>
      SubmitResult(admins, c, docId, uuid, now) == (admins, Some(PasswordMismatchMessage))
    ensures c.password == c.confirmPassword && AdminExists(admins, c.email) ==>
      SubmitResult(admins, c, docId, uuid, now) == (admins, Some(AdminExistsMessage))
    ensures SubmitResult(admins, c, docId, uuid, now).1.None? <==>
      c.password == c.confirmPassword && !AdminExists(admins, c.email)
  {
  }

  /** A successful sign-up appends exactly one admin: of type admin, with the e-mail and
      password given, capitalised names, no photo, no elections, an unverified e-mail and its own
      document id as `uid`. Signing up again with that e-mail is then refused. */
  lemma SubmitCreatesAdmin(admins: seq<AdminRecord>, c: Credentials, docId: string, uuid: string, now: int,
                           c2: Credentials, docId2: string, uuid2: string, now2: int)
    requires SubmitResult(admins, c, docId, uuid, now).1.None?
    ensures var after := SubmitResult(admins, c, docId, uuid, now).0;
      |after| == |admins| + 1 && after[..|admins|] == admins &&
      var a := after[|admins|];
      a.accountType == "admin" && a.email == c.email && a.password == c.password &&
      a.firstName == Capitalize(c.firstName) && a.lastName == Capitalize(c.lastName) &&
      a.photoUrl == "" && a.elections == [] && !a.emailVerified && a.uid == Some(docId) &&
      a.createdAt == now == a.updatedAt
    ensures var after := SubmitResult(admins, c, docId, uuid, now).0;
      c2.email == c.email && c2.password == c2.confirmPassword ==>
      SubmitResult(after, c2, docId2, uuid2, now2) == (after, Some(AdminExistsMessage))
  {
    var after := SubmitResult(admins, c, docId, uuid, now).0;
    assert after[|admins|].email == c.email;
  }

  /** The submit button's `disabled` expression. */
  predicate SubmitDisabled(c: Credentials, loading: bool) {
    c.firstName == [] || c.lastName == [] || c.email == [] || c.password == [] ||
    c.confirmPassword == [] || |c.password| < 8 || |c.confirmPassword| < 8 ||
    c.password != c.confirmPassword || loading
  }

  /** The button is enabled exactly when all three text fields are filled, the password has at
      least 8 characters, the confirmation repeats it and nothing is loading; an enabled submit
      never meets the mismatch error. */
  lemma SubmitEnabled(c: Credentials, loading: bool, admins: seq<AdminRecord>, docId: string, uuid: string, now: int)
    ensures !SubmitDisabled(c, loading) <==>
      c.firstName != [] && c.lastName != [] && c.email != [] && |c.password| >= 8 &&
      c.confirmPassword == c.password && !loading
    ensures !SubmitDisabled(c, loading) ==>
      SubmitResult(admins, c, docId, uuid, now).1 != Some(PasswordMismatchMessage)
  {
  }

  /** The `admins` collection. */
  class AdminStore {
    var admins: seq<AdminRecord>

    constructor (admins: seq<AdminRecord>)
      ensures this.admins == admins
    {
      this.admins := admins;
    }
  }

  /** The page's state. */
  class SignupPage {
    var error: Option<string>
    var loading: bool
    var credentials: Credentials

    constructor ()
      ensures error == None && !loading && credentials == Credentials("", "", "", "", "")
    {
      error, loading, credentials := None, false, Credentials("", "", "", "", "");
    }

    /** The form's `onSubmit`: the two guards, then `addDoc` followed by the `setDoc` that merges
        the document's own id in as `uid`. Signing in afterwards is not part of this model. */
    method OnSubmit(store: AdminStore, docId: string, uuid: string, now: int)
      modifies this, store
      ensures (store.admins, error) == SubmitResult(old(store.admins), credentials, docId, uuid, now)
      ensures credentials == old(credentials) && !loading
    {
      loading := true;
      error := None;
      if credentials.password != credentials.confirmPassword {
        error := Some(PasswordMismatchMessage);
        loading := false;
        return;
      }
      if AdminExists(store.admins, credentials.email) {
        error := Some(AdminExistsMessage);
        loading := false;
        return;
      }
      store.admins := store.admins + [NewAdmin(credentials, docId, uuid, now)];
      var k := |store.admins| - 1;
      store.admins := store.admins[k := store.admins[k].(uid := Some(docId))];
      assert store.admins == old(store.admins) + [NewAdmin(credentials, docId, uuid, now).(uid := Some(docId))];
      loading := false;
    }
  }

  // ---- Visitors with a session ----

  /** The signed-in user of a session. */
  datatype SessionUser = SessionUser(accountType: string, election: string, elections: seq<string>)

  datatype PageResult = Redirect(destination: string) | RenderPage

  /** `getServerSideProps`: a voter goes to its election's page (the `electionIdName` of the
      election document, printed as `undefined` when the document or field is missing), an admin
      without elections to `/create-election`, any other admin to `/dashboard`; without a
      session, or for any other account type, the page is rendered. */
  function ServerSideRedirect(session: Option<SessionUser>, electionIdNames: map<string, string>): (r: PageResult)
    ensures r.RenderPage? <==> session.None? || session.value.accountType !in {"voter", "admin"}
    ensures r.Redirect? && session.value.accountType == "voter" ==>
      r.destination == "/" + (if session.value.election in electionIdNames
                              then electionIdNames[session.value.election] else "undefined")
    ensures r.Redirect? && session.value.accountType == "admin" ==>
      r.destination == (if session.value.elections == [] then "/create-election" else "/dashboard")
  {
    if session.Some? && session.value.accountType == "voter" then
      var name := if session.value.election in electionIdNames then electionIdNames[session.value.election] else "undefined";
      Redirect("/" + name)
    else if session.Some? && session.value.accountType == "admin" then
      if |session.value.elections| == 0 then Redirect("/create-election") else Redirect("/dashboard")
    else RenderPage
  }
}
