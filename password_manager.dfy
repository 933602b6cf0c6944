/** The password manager panel: the saved entries, the add form, the search, the strength
    meter and the generator of random passwords. The clock and the random draws are
    parameters. */
module PasswordManager {
  import opened Seqs
  import opened JsString

  datatype Entry = Entry(id: int, site: string, username: string, password: string, notes: string,
                         createdAt: int, lastUsed: int)

  /** The add form's fields. */
  datatype Draft = Draft(site: string, username: string, password: string, notes: string)

  const EMPTY_DRAFT: Draft := Draft("", "", "", "")

  datatype VaultState = VaultState(passwords: seq<Entry>, draft: Draft, showAddForm: bool)

  // ---------------------------------------------------------------- strength meter

  /** The four character classes the meter looks for: `[a-z]`, `[A-Z]`, `[0-9]` and
      `[^A-Za-z0-9]`. */
  datatype CharClass = Lower | Upper | Digit | Symbol

  predicate InClass(c: char, cls: CharClass)
  {
    match cls
    case Lower => IsLowerAscii(c)
    case Upper => IsUpperAscii(c)
    case Digit => IsDigit(c)
    case Symbol => !IsAlnum(c)
  }

  predicate HasClass(p: string, cls: CharClass)
  {
    exists i :: 0 <= i < |p| && InClass(p[i], cls)
  }

  /** The number of criteria `p` meets: at least eight characters, and one point per class
      present. */
  function Criteria(p: string): (n: nat)
    ensures n <= 5
  {
    (if |p| >= 8 then 1 else 0) + (if HasClass(p, Lower) then 1 else 0)
    + (if HasClass(p, Upper) then 1 else 0) + (if HasClass(p, Digit) then 1 else 0)
    + (if HasClass(p, Symbol) then 1 else 0)
  }

  /** `/[...]/.test(p)`: scans `p` for a character of the class. */
  method TestClass(p: string, cls: CharClass) returns (found: bool)
    ensures found <==> HasClass(p, cls)
  {
    found := false;
    var i := 0;
    while i < |p| && !found
      invariant 0 <= i <= |p|
      invariant found <==> exists j :: 0 <= j < i && InClass(p[j], cls)
    {
      if InClass(p[i], cls) {
        found := true;
      }
      i := i + 1;
    }
  }

  /** The score of `getPasswordStrength`, counted one criterion at a time. */
  method PasswordScore(p: string) returns (score: nat)
    ensures score == Criteria(p)
    ensures score <= 5
  {
    score := 0;
    if |p| >= 8 {
      score := score + 1;
    }
    var lower := TestClass(p, Lower);
    if lower {
      score := score + 1;
    }
    var upper := TestClass(p, Upper);
    if upper {
      score := score + 1;
    }
    var digit := TestClass(p, Digit);
    if digit {
      score := score + 1;
    }
    var symbol := TestClass(p, Symbol);
    if symbol {
      score := score + 1;
    }
  }

  datatype Strength = Weak | Fair | Good | Strong

  /** The label and its colour. */
  function StrengthOf(score: nat): (r: Strength)
    ensures r == Weak <==> score <= 2
    ensures r == Fair <==> score == 3
    ensures r == Good <==> score == 4
    ensures r == Strong <==> score >= 5
  {
    if score <= 2 then Weak
    else if score <= 3 then Fair
    else if score <= 4 then Good
    else Strong
  }

  function Color(s: Strength): string
  {
    match s
    case Weak => "text-red-400"
    case Fair => "text-yellow-400"
    case Good => "text-blue-400"
    case Strong => "text-green-400"
  }

  function Rank(s: Strength): nat
  {
    match s
    case Weak => 0
    case Fair => 1
    case Good => 2
    case Strong => 3
  }

  /** A higher score never gets a weaker label. */
  lemma StrengthMonotone(a: nat, b: nat)
    requires a <= b
    ensures Rank(StrengthOf(a)) <= Rank(StrengthOf(b))
  {
  }

  /** `getPasswordStrength`. */
  method GetPasswordStrength(p: string) returns (strength: Strength, color: string)
    ensures strength == StrengthOf(Criteria(p)) && color == Color(strength)
    ensures strength == Strong <==> |p| >= 8 && HasClass(p, Lower) && HasClass(p, Upper)
                                    && HasClass(p, Digit) && HasClass(p, Symbol)
  {
    var score := PasswordScore(p);
    strength := StrengthOf(score);
    color := Color(strength);
  }

  /** Appending characters never lowers the strength. */
  lemma {:induction false} ExtendingNeverWeakens(p: string, q: string)
    ensures Criteria(p) <= Criteria(p + q)
  {
    forall cls | HasClass(p, cls) ensures HasClass(p + q, cls) {
      var i :| 0 <= i < |p| && InClass(p[i], cls);
      assert (p + q)[i] == p[i];
    }
  }

  // ---------------------------------------------------------------- generator

  const CHARSET: string := "ABCDEFGHIJKLMNOPQRSTUVWXYZabcdefghijklmnopqrstuvwxyz0123456789!@#$%^&*"
  const GENERATED_LENGTH: nat := 16

  /** `generateStrongPassword`: sixteen characters of the charset. `draws[i]` is what
      `Math.floor(Math.random() * chars.length)` gave in round `i`, an index into the charset. */
  method GenerateStrongPassword(draws: seq<nat>) returns (password: string)
    requires |draws| == GENERATED_LENGTH
    requires forall i :: 0 <= i < |draws| ==> draws[i] < |CHARSET|
    ensures |password| == GENERATED_LENGTH
    ensures forall i :: 0 <= i < |password| ==> password[i] == CHARSET[draws[i]]
    ensures forall c :: c in password ==> c in CHARSET
  {
    password := "";
    for i := 0 to GENERATED_LENGTH
      invariant |password| == i
      invariant forall j :: 0 <= j < i ==> password[j] == CHARSET[draws[j]]
    {
      password := password + [CHARSET[draws[i]]];
    }
  }

  /** The charset has seventy characters: 26 upper-case letters, 26 lower-case, 10 digits and
      8 symbols. */
  lemma CharsetSize()
    ensures |CHARSET| == 70
  {
  }

  /** The generator fills only the draft's password. */
  function WithPassword(d: Draft, password: string): (r: Draft)
    ensures r.password == password && r.site == d.site && r.username == d.username && r.notes == d.notes
  {
    d.(password := password)
  }

  // ---------------------------------------------------------------- entries

  /** `handleAddPassword`: with a site, a username and a password in the draft, one entry is
      appended (id and both dates from the clock), the draft is reset and the form closes;
      otherwise nothing changes. */
  function AddPassword(s: VaultState, now: int): (r: VaultState)
    ensures s.draft.site == "" || s.draft.username == "" || s.draft.password == "" ==> r == s
    ensures s.draft.site != "" && s.draft.username != "" && s.draft.password != "" ==>
              r.passwords == s.passwords + [Entry(now, s.draft.site, s.draft.username, s.draft.password,
                                                  s.draft.notes, now, now)]
              && r.draft == EMPTY_DRAFT && !r.showAddForm
  {
    if s.draft.site != "" && s.draft.username != "" && s.draft.password != "" then
      var d := s.draft;
      VaultState(s.passwords + [Entry(now, d.site, d.username, d.password, d.notes, now, now)],
                 EMPTY_DRAFT, false)
    else s
  }

  function NotId(id: int): Entry -> bool
  {
    (e: Entry) => e.id != id
  }

  /** `handleDeletePassword`: exactly the entries with that id go, the rest keep their order. */
  function DeletePassword(passwords: seq<Entry>, id: int): (r: seq<Entry>)
    ensures forall e :: e in r <==> e in passwords && e.id != id
    ensures forall e :: multiset(r)[e] == if e.id != id then multiset(passwords)[e] else 0
    ensures Subsequence(r, passwords)
  {
    var keep := NotId(id);
    FilterMultiplicity(passwords, keep);
    Filter(passwords, keep)
  }

  /** Adding an entry at a time no saved entry has as its id, then deleting that id, gives
      back the saved entries. */
  lemma AddThenDelete(s: VaultState, now: int)
    requires s.draft.site != "" && s.draft.username != "" && s.draft.password != ""
    requires forall e :: e in s.passwords ==> e.id != now
    ensures DeletePassword(AddPassword(s, now).passwords, now) == s.passwords
  {
    var added := AddPassword(s, now).passwords;
    var last := added[|added| - 1];
    FilterConcat(s.passwords, [last], NotId(now));
    FilterAll(s.passwords, NotId(now));
    assert Filter([last], NotId(now)) == [];
  }

  predicate Matches(e: Entry, searchTerm: string)
  {
    IncludesIgnoringCase(e.site, searchTerm) || IncludesIgnoringCase(e.username, searchTerm)
    || IncludesIgnoringCase(e.notes, searchTerm)
  }

  /** `filteredPasswords`: the entries whose site, username or notes contain the search term,
      ignoring case, in list order. */
  function FilteredPasswords(passwords: seq<Entry>, searchTerm: string): (r: seq<Entry>)
    ensures forall e :: e in r <==> e in passwords && Matches(e, searchTerm)
    ensures forall e :: multiset(r)[e] == if Matches(e, searchTerm) then multiset(passwords)[e] else 0
    ensures Subsequence(r, passwords)
  {
    var keep := (e: Entry) => Matches(e, searchTerm);
    FilterMultiplicity(passwords, keep);
    Filter(passwords, keep)
  }

  /** An empty search shows every entry. */
  lemma EmptySearchShowsAll(passwords: seq<Entry>)
    ensures FilteredPasswords(passwords, "") == passwords
  {
    forall e | e in passwords ensures Matches(e, "") {
      EmptyIncludedEverywhere(e.site);
    }
    FilterAll(passwords, (e: Entry) => Matches(e, ""));
  }
}
