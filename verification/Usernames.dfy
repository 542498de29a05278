/** The migration that gives every account a username: derived from its address, suffixed until it is free. */
module Usernames {
  import opened Text
  import opened Sequences

  const MAX_LENGTH := 32

  // ---- the initial name ----

  predicate Allowed(c: char) {
    'a' <= c <= 'z' || '0' <= c <= '9' || c == '_' || c == '-'
  }

  predicate AllAllowed(s: string) {
    forall i :: 0 <= i < |s| ==> Allowed(s[i])
  }

  function LocalPart(email: string): (s: string) {
    if email == "" || email[0] == '@' then "" else [email[0]] + LocalPart(email[1..])
  }

  function KeepAllowed(s: string): (r: string)
    ensures AllAllowed(r) && |r| <= |s|
  {
    if s == "" then "" else (if Allowed(s[0]) then [s[0]] else "") + KeepAllowed(s[1..])
  }

  /** `s[:n]` for any integer: a negative bound counts from the end. */
  function Take(s: string, n: int): (r: string)
    ensures r <= s
  {
    if n >= |s| then s else if n >= 0 then s[..n] else if |s| + n >= 0 then s[..|s| + n] else ""
  }

  /** A name from the address's local part: lowercased, allowed characters only, 3 to 32 of them. */
  function Derive(lower: string -> string, email: Option<string>): (base: string)
    ensures 3 <= |base| <= MAX_LENGTH && AllAllowed(base)
  {
    var kept := KeepAllowed(lower(LocalPart(if email.Some? then email.value else "")));
    var base := if kept == "" then "user" else kept;
    Take(if |base| < 3 then Take(base + "user", MAX_LENGTH) else base, MAX_LENGTH)
  }

  /** The part before the first `@`, or the whole address if there is none. */
  lemma {:induction false} LocalPartIs(email: string)
    ensures '@' !in LocalPart(email)
    ensures LocalPart(email) <= email
    ensures LocalPart(email) == email || email[|LocalPart(email)|] == '@'
  {
    if email != "" && email[0] != '@' {
      LocalPartIs(email[1..]);
      assert email == [email[0]] + email[1..];
    }
  }

  lemma {:induction false} KeepsJustAllowed(s: string)
    ensures KeepAllowed(s) == Filter(s, (c: char) => Allowed(c))
  {
    if s != "" { KeepsJustAllowed(s[1..]); }
  }

  /** The name an address gives: its lowered local part without forbidden characters, cut or filled up. */
  lemma DeriveIsLocalPart(lower: string -> string, email: string)
    ensures
      var (kept, base) := (Filter(lower(LocalPart(email)), (c: char) => Allowed(c)), Derive(lower, Some(email)));
      && (|kept| > MAX_LENGTH ==> base == kept[..MAX_LENGTH])
      && (3 <= |kept| <= MAX_LENGTH ==> base == kept)
      && (1 <= |kept| < 3 ==> base == kept + "user")
      && (kept == [] ==> base == "user")
    ensures Derive(lower, None) == Derive(lower, Some(""))
  {
    KeepsJustAllowed(lower(LocalPart(email)));
  }

  // ---- suffixes ----

  function Suffix(i: nat): (s: string) { "-" + Digits(i) }

  function Suffixed(base: string, i: nat): (name: string) {
    Take(base, MAX_LENGTH - |Suffix(i)|) + Suffix(i)
  }

  /** The i-th name tried for a base: the base itself first, then `-2`, `-3` and so on. */
  function Tried(base: string, i: nat): (name: string) {
    if i < 2 then base else Suffixed(base, i)
  }

  /** The base comes first; from the second on, the number behind a hyphen, after as much of the base as fits. */
  lemma TriedIs(base: string, i: nat)
    requires |base| <= MAX_LENGTH && |Digits(i)| < MAX_LENGTH
    ensures
      var room := MAX_LENGTH - 1 - |Digits(i)|;
      Tried(base, i) == if i < 2 then base else base[..if |base| < room then |base| else room] + "-" + Digits(i)
  {
  }

  /** What follows the last hyphen. */
  function AfterLastHyphen(s: string): (r: string) {
    if s == "" then "" else if s[|s| - 1] == '-' then "" else AfterLastHyphen(s[..|s| - 1]) + [s[|s| - 1]]
  }

  lemma {:induction false} HyphenThenDigits(prefix: string, digits: string)
    requires AllDigits(digits)
    ensures AfterLastHyphen(prefix + "-" + digits) == digits
  {
    var s := prefix + "-" + digits;
    if digits == "" {
      assert s == prefix + "-" && s[|s| - 1] == '-';
    } else {
      var n := |digits| - 1;
      HyphenThenDigits(prefix, digits[..n]);
      assert s[..|s| - 1] == prefix + "-" + digits[..n];
      assert s[|s| - 1] == digits[n] && IsDigit(digits[n]);
    }
  }

  /** Different suffixes make different names, whatever is left of the base before them. */
  lemma SuffixedDiffer(base: string, i: nat, j: nat)
    requires Suffixed(base, i) == Suffixed(base, j)
    ensures i == j
  {
    var (p, q) := (Take(base, MAX_LENGTH - |Suffix(i)|), Take(base, MAX_LENGTH - |Suffix(j)|));
    assert Suffixed(base, i) == p + "-" + Digits(i) && Suffixed(base, j) == q + "-" + Digits(j);
    HyphenThenDigits(p, Digits(i));
    HyphenThenDigits(q, Digits(j));
    DigitsInjective(i, j);
  }

  /** Names already given that are among the first `i` tried. */
  lemma {:induction false} TriedAreMany(base: string, i: nat, taken: set<string>)
    requires i >= 2 && base in taken && forall k :: 2 <= k < i ==> Suffixed(base, k) in taken
    ensures i - 2 <= |taken|
  {
    SuffixesCount(base, i);
    SubsetSize(SuffixedUpTo(base, i), taken);
  }

  function SuffixedUpTo(base: string, i: nat): (r: set<string>)
    ensures forall x :: x in r <==> exists k :: 2 <= k < i && Suffixed(base, k) == x
  {
    set k | 2 <= k < i :: Suffixed(base, k)
  }

  lemma {:induction false} SuffixesCount(base: string, i: nat)
    requires i >= 2
    ensures |SuffixedUpTo(base, i)| == i - 2
  {
    if i > 2 {
      SuffixesCount(base, i - 1);
      var (rest, last) := (SuffixedUpTo(base, i - 1), Suffixed(base, i - 1));
      LastIsNew(base, i - 1);
      forall x ensures x in SuffixedUpTo(base, i) <==> x in rest + {last} {
        if x in rest {
          var k :| 2 <= k < i - 1 && Suffixed(base, k) == x;
          assert 2 <= k < i;
        }
      }
      assert SuffixedUpTo(base, i) == rest + {last};
    }
  }

  lemma LastIsNew(base: string, i: nat)
    requires i >= 2
    ensures Suffixed(base, i) !in SuffixedUpTo(base, i)
  {
    forall k | 2 <= k < i ensures Suffixed(base, k) != Suffixed(base, i) {
      if Suffixed(base, k) == Suffixed(base, i) { SuffixedDiffer(base, k, i); }
    }
  }

  /** The loop for one account: it ends, for any set of names already given, with the first name that is free. */
  method FreeName(base: string, taken: set<string>) returns (name: string, ghost last: nat)
    ensures name == Tried(base, last) && name !in taken
    ensures last == 0 || 2 <= last <= |taken| + 2
    ensures forall k: nat :: (k == 0 || k >= 2) && k < last ==> Tried(base, k) in taken
  {
    name := base;
    last := 0;
    var i := 2;
    while name in taken
      invariant i >= 2 && last == (if i == 2 then 0 else i - 1) && name == Tried(base, last)
      invariant i > 2 ==> base in taken
      invariant forall k :: 2 <= k < last ==> Suffixed(base, k) in taken
      invariant i > 2 ==> last <= |taken| + 2
      decreases |taken| + 3 - i
    {
      if i > 2 {
        assert forall k :: 2 <= k < i ==> Suffixed(base, k) in taken;
        TriedAreMany(base, i, taken);
      } else {
        TriedAreMany(base, 2, taken);
      }
      last := i;
      var suffix := Suffix(i);
      name := Take(base, MAX_LENGTH - |suffix|) + suffix;
      i := i + 1;
    }
  }

  /** A name has 3 to 32 characters, while the number of accounts keeps the suffixes short. */
  lemma TriedFits(base: string, i: nat)
    requires 3 <= |base| <= MAX_LENGTH && AllAllowed(base) && i < Pow10(30)
    ensures 3 <= |Tried(base, i)| <= MAX_LENGTH && AllAllowed(Tried(base, i))
  {
    if i >= 2 {
      DigitsLength(i, 30);
      var kept := Take(base, MAX_LENGTH - |Suffix(i)|);
      assert |Suffix(i)| <= 31 && |kept| >= 1;
      SuffixAllowed(i);
      AllowedJoin(kept, Suffix(i));
    }
  }

  lemma SuffixAllowed(i: nat)
    ensures AllAllowed(Suffix(i))
  {
  }

  lemma AllowedJoin(a: string, b: string)
    requires AllAllowed(a) && AllAllowed(b)
    ensures AllAllowed(a + b)
  {
  }

  predicate IsUsername(name: string) {
    3 <= |name| <= MAX_LENGTH && AllAllowed(name)
  }

  /** Each account's name is the first of its own candidates that no earlier account has. */
  ghost predicate FirstFree(base: string, earlier: seq<string>, name: string) {
    exists i: nat :: (i == 0 || i >= 2) && Tried(base, i) == name && name !in earlier
      && forall k: nat :: (k == 0 || k >= 2) && k < i ==> Tried(base, k) in earlier
  }

  /** One account's turn. */
  method NextName(base: string, names: seq<string>, taken: set<string>) returns (name: string)
    requires 3 <= |base| <= MAX_LENGTH && AllAllowed(base) && taken == Elements(names)
    ensures FirstFree(base, names, name) && name !in names
    ensures |names| < Pow10(29) ==> IsUsername(name)
  {
    ghost var last;
    name, last := FreeName(base, taken);
    FewElements(names);
    if |names| < Pow10(29) {
      assert Pow10(30) == 10 * Pow10(29);
      assert Pow10(29) >= 10;
      TriedFits(base, last);
    }
  }

  /** The k-th account's name is the first free one for it, after the names before it. */
  ghost predicate Assigned(bases: seq<string>, names: seq<string>, k: nat)
    requires k < |names| <= |bases|
  {
    FirstFree(bases[k], names[..k], names[k])
  }

  lemma AssignedStay(bases: seq<string>, names: seq<string>, name: string, k: nat)
    requires k < |names| < |bases| && Assigned(bases, names, k)
    ensures Assigned(bases, names + [name], k)
  {
    assert (names + [name])[..k] == names[..k];
  }

  function Bases(lower: string -> string, emails: seq<Option<string>>): (r: seq<string>)
    ensures |r| == |emails|
    ensures forall k :: 0 <= k < |r| ==> r[k] == Derive(lower, emails[k])
  {
    seq(|emails|, k requires 0 <= k < |emails| => Derive(lower, emails[k]))
  }

  /** The names so far are new, first free, and proper while the bound holds. */
  ghost predicate Named(bases: seq<string>, names: seq<string>) {
    && |names| <= |bases| && NoDup(names)
    && (forall k :: 0 <= k < |names| ==> Assigned(bases, names, k))
    && (|bases| < Pow10(29) ==> forall k :: 0 <= k < |names| ==> IsUsername(names[k]))
  }

  lemma OneMoreNamed(bases: seq<string>, names: seq<string>, name: string)
    requires Named(bases, names) && |names| < |bases|
    requires FirstFree(bases[|names|], names, name) && name !in names
    requires |names| < Pow10(29) ==> IsUsername(name)
    ensures Named(bases, names + [name])
  {
    var more := names + [name];
    forall k | 0 <= k < |more| ensures Assigned(bases, more, k) {
      if k < |names| { AssignedStay(bases, names, name, k); } else { assert more[..k] == names; }
    }
  }

  /**
   * The whole migration, oldest account first: every name is new, each the first free one for its account,
   * and a proper username as long as there are fewer than ten to the 29 accounts.
   */
  method Upgrade(lower: string -> string, emails: seq<Option<string>>) returns (names: seq<string>)
    ensures |names| == |emails| && NoDup(names)
    ensures forall k :: 0 <= k < |names| ==> Assigned(Bases(lower, emails), names, k)
    ensures |emails| < Pow10(29) ==> forall k :: 0 <= k < |names| ==> IsUsername(names[k])
  {
    names := [];
    var taken: set<string> := {};
    var row := 0;
    ghost var bases := Bases(lower, emails);
    while row < |emails|
      invariant 0 <= row <= |emails| && |names| == row
      invariant taken == Elements(names) && Named(bases, names)
    {
      var name := NextName(Derive(lower, emails[row]), names, taken);
      OneMoreNamed(bases, names, name);
      taken := taken + {name};
      names := names + [name];
      row := row + 1;
    }
  }
}
