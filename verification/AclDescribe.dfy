/**
 Printing a user as rules (acl.c), and reading the rules again.

 The commands are described by `+@all` or `-@all`, then categories, then single commands.  Categories are
 chosen greedily, with a stand-in user that shows what is left to be described.
 */
module AclDescribe {

  import opened Options
  import opened AclUser
  import opened AclText

  // ------------------------------------------------------------- Reading the rules

  lemma {:induction false} ApplyConcat(cfg: Config, u: User, a: seq<string>, b: seq<string>)
    requires ApplyAll(cfg, u, a).Done?
    ensures ApplyAll(cfg, u, a + b) == ApplyAll(cfg, ApplyAll(cfg, u, a).user, b)
    decreases |a|
  {
    hide Apply, Parse;
    if a == [] {
      assert a + b == b;
    } else {
      assert (a + b)[1..] == a[1..] + b;
      ApplyConcat(cfg, Apply(cfg, u, Parse(a[0])).user, a[1..], b);
    }
  }

  lemma Then(cfg: Config, u: User, a: seq<string>, m: User, b: seq<string>, r: User)
    requires ApplyAll(cfg, u, a) == Done(m) && ApplyAll(cfg, m, b) == Done(r)
    ensures ApplyAll(cfg, u, a + b) == Done(r)
  {
    hide ApplyAll;
    ApplyConcat(cfg, u, a, b);
  }

  lemma ApplyOne(cfg: Config, u: User, op: string)
    ensures ApplyAll(cfg, u, [op]) == Apply(cfg, u, Parse(op))
  {
    hide Apply, Parse;
    assert [op][1..] == [];
  }

  /** A lower-case word without null characters is seen as it is. */
  lemma PlainWord(w: string)
    requires forall i | 0 <= i < |w| :: w[i] != NUL && LowerChar(w[i]) == w[i]
    ensures Lower(CStr(w)) == w
  {
    assert NUL !in w;
    CStrSame(w);
    assert Lower(w) == w;
  }

  lemma NoPassKeyword()
    ensures Keyword("nopass") == Some(NoPass)
  {
  }

  lemma NoPassParses()
    ensures Parse("nopass") == NoPass
  {
    hide Lower, CStr, Keyword;
    NoPassKeyword();
    PlainWord("nopass");
  }

  lemma SanitizeKeyword()
    ensures Keyword("sanitize-payload") == Some(Sanitize)
  {
  }

  lemma SanitizeParses()
    ensures Parse("sanitize-payload") == Sanitize
  {
    hide Lower, CStr, Keyword;
    SanitizeKeyword();
    PlainWord("sanitize-payload");
  }

  lemma SkipSanitizeKeyword()
    ensures Keyword("skip-sanitize-payload") == Some(SkipSanitize)
  {
  }

  lemma SkipSanitizeParses()
    ensures Parse("skip-sanitize-payload") == SkipSanitize
  {
    hide Lower, CStr, Keyword;
    SkipSanitizeKeyword();
    PlainWord("skip-sanitize-payload");
  }

  lemma ResetChannelsKeyword()
    ensures Keyword("resetchannels") == Some(ResetChannels)
  {
  }

  lemma ResetChannelsParses()
    ensures Parse("resetchannels") == ResetChannels
  {
    hide Lower, CStr, Keyword;
    ResetChannelsKeyword();
    PlainWord("resetchannels");
  }

  lemma AllCommandsKeyword()
    ensures Keyword("+@all") == Some(AllCommands)
  {
  }

  lemma AllCommandsParses()
    ensures Parse("+@all") == AllCommands
  {
    hide Lower, CStr, Keyword;
    AllCommandsKeyword();
    PlainWord("+@all");
  }

  lemma NoCommandsKeyword()
    ensures Keyword("-@all") == Some(NoCommands)
  {
  }

  lemma NoCommandsParses()
    ensures Parse("-@all") == NoCommands
  {
    hide Lower, CStr, Keyword;
    NoCommandsKeyword();
    PlainWord("-@all");
  }

  lemma AllKeysKeyword()
    ensures Keyword("~*") == Some(AllKeys)
  {
  }

  lemma AllKeysParses()
    ensures Parse("~*") == AllKeys
  {
    hide Lower, CStr, Keyword;
    AllKeysKeyword();
    PlainWord("~*");
  }

  lemma AllChannelsKeyword()
    ensures Keyword("&*") == Some(AllChannels)
  {
  }

  lemma AllChannelsParses()
    ensures Parse("&*") == AllChannels
  {
    hide Lower, CStr, Keyword;
    AllChannelsKeyword();
    PlainWord("&*");
  }

  /** Words of their own start with a letter, but for four. */
  lemma NotKeyword(w: string)
    requires w != [] && !('a' <= w[0] <= 'z') && w != "~*" && w != "&*" && w != "+@all" && w != "-@all"
    ensures Keyword(w).None?
  {
  }

  /** What a rule starts with survives the view of C. */
  lemma HeadSeen(op: string)
    requires op != [] && op[0] != NUL
    ensures Lower(CStr(op)) != [] && Lower(CStr(op))[0] == LowerChar(op[0])
  {
  }

  lemma HashParses(h: string)
    ensures Parse("#" + h) == AddHash(h)
  {
    HeadSeen("#" + h);
    hide Lower, CStr, Keyword;
    assert Lower(CStr("#" + h))[0] == '#';
    NotKeyword(Lower(CStr("#" + h)));
    assert ("#" + h)[1..] == h;
  }

  lemma StarOnly(p: string)
    requires Lower(p) == "*"
    ensures p == "*"
  {
  }

  lemma Seen(c: char, p: string)
    requires NUL !in p && c != NUL
    ensures Lower(CStr([c] + p)) == [LowerChar(c)] + Lower(p)
  {
    assert NUL !in [c] + p;
    CStrSame([c] + p);
  }

  lemma KeyParses(p: string)
    requires NUL !in p && p != "*"
    ensures Parse("~" + p) == KeyPattern(p)
  {
    Seen('~', p);
    if Lower(p) == "*" { StarOnly(p); }
    hide Lower, CStr, Keyword;
    assert ("~" + p)[1..] == p;
    var w := ['~'] + Lower(p);
    assert w[0] == '~' && w[1..] == Lower(p);
    assert "~*"[1..] == "*";
    NotKeyword(w);
  }

  lemma ChannelParses(p: string)
    requires NUL !in p && p != "*"
    ensures Parse("&" + p) == ChannelPattern(p)
  {
    Seen('&', p);
    if Lower(p) == "*" { StarOnly(p); }
    hide Lower, CStr, Keyword;
    assert ("&" + p)[1..] == p;
    var w := ['&'] + Lower(p);
    assert w[0] == '&' && w[1..] == Lower(p);
    assert "&*"[1..] == "*";
    NotKeyword(w);
  }

  lemma NameFacts(name: string)
    requires NameOk(name)
    ensures NUL !in name && CStr(name) == name && Lower(name) == name && BarAt(name) == |name|
    ensures name != [] && name[0] != '@'
  {
    CStrSame(name);
  }

  lemma AllowParses(name: string)
    requires NameOk(name)
    ensures Parse("+" + name) == Allow(name)
  {
    NameFacts(name);
    Seen('+', name);
    hide Lower, CStr, NameOk, BarAt, Keyword;
    var w := ['+'] + name;
    assert w[0] == '+' && w[1] == name[0];
    assert "+@all"[1] == '@';
    NotKeyword(w);
    assert ("+" + name)[1..] == name;
  }

  lemma DenyParses(name: string)
    requires NameOk(name)
    ensures Parse("-" + name) == Deny(name)
  {
    NameFacts(name);
    Seen('-', name);
    hide Lower, CStr, NameOk, BarAt, Keyword;
    var w := ['-'] + name;
    assert w[0] == '-' && w[1] == name[0];
    assert "-@all"[1] == '@';
    NotKeyword(w);
    assert ("-" + name)[1..] == name;
  }

  lemma BarFound(name: string, sub: string)
    requires '|' !in name
    ensures BarAt(name + "|" + sub) == |name|
  {
    var s := name + "|" + sub;
    assert s[|name|] == '|';
    assert forall j | 0 <= j < |name| :: s[j] == name[j];
  }

  lemma SubRest(name: string, sub: string)
    requires NameOk(name) && NUL !in sub
    ensures var rest := name + "|" + sub;
            NUL !in rest && CStr(rest) == rest && BarAt(rest) == |name| &&
            name != [] && Lower(rest)[0] == name[0] && name[0] != '@'
  {
    NameFacts(name);
    BarFound(name, sub);
    var rest := name + "|" + sub;
    assert NUL !in rest;
    CStrSame(rest);
    assert Lower(name)[0] == LowerChar(name[0]);
    hide CStr, BarAt, NameOk;
  }

  lemma AllowSubParses(name: string, sub: string)
    requires NameOk(name) && NUL !in sub
    ensures Parse("+" + name + "|" + sub) == AllowSub(name, sub)
  {
    hide Lower, CStr, NameOk, BarAt, Keyword;
    var rest, op := name + "|" + sub, "+" + name + "|" + sub;
    SubRest(name, sub);
    Seen('+', rest);
    assert op == ['+'] + rest;
    var w := ['+'] + Lower(rest);
    assert w[0] == '+' && w[1] == name[0];
    assert "+@all"[1] == '@';
    NotKeyword(w);
    assert op[1..] == rest && op[1] == name[0];
    assert rest[..|name|] == name && rest[|name| + 1..] == sub;
  }

  /** Letters only. */
  predicate Letters(s: string) { forall i | 0 <= i < |s| :: 'a' <= s[i] <= 'z' }

  lemma CategoryLetters(j: nat)
    requires j < CATEGORY_COUNT
    ensures Letters(CategoryName(j)) && CategoryName(j) != "all"
  {
  }

  lemma LettersSeen(name: string)
    requires Letters(name)
    ensures NUL !in name && CStr(name) == name && Lower(name) == name
  {
  }

  lemma TwoSeen(c: char, d: char, name: string)
    requires Letters(name) && c != NUL && d != NUL && LowerChar(c) == c && LowerChar(d) == d
    ensures Lower(CStr([c, d] + name)) == [c, d] + name
  {
    LettersSeen(name);
    hide CStr, Letters;
    assert [c, d] + name == [c] + ([d] + name);
    assert NUL !in [d] + name;
    Seen(c, [d] + name);
    assert Lower([d] + name) == [d] + Lower(name);
  }

  lemma PlusCategoryParses(name: string)
    requires Letters(name) && name != "all"
    ensures Parse("+@" + name) == Category(true, name)
  {
    hide Lower, CStr, Keyword, Letters;
    LettersSeen(name);
    TwoSeen('+', '@', name);
    var op := ['+', '@'] + name;
    assert op == "+@" + name;
    assert op[0] == '+' && op[1] == '@' && op[2..] == name;
    assert "+@all"[2..] == "all";
    NotKeyword(op);
  }

  lemma MinusCategoryParses(name: string)
    requires Letters(name) && name != "all"
    ensures Parse("-@" + name) == Category(false, name)
  {
    hide Lower, CStr, Keyword, Letters;
    LettersSeen(name);
    TwoSeen('-', '@', name);
    var op := ['-', '@'] + name;
    assert op == "-@" + name;
    assert op[0] == '-' && op[1] == '@' && op[2..] == name;
    assert "-@all"[2..] == "all";
    NotKeyword(op);
  }

  // ---------------------------------------------------------------- Lists of rules

  function Prefixed(p: string, s: seq<string>): seq<string> {
    seq(|s|, i requires 0 <= i < |s| => p + s[i])
  }

  lemma PrefixedLast(p: string, s: seq<string>)
    requires s != []
    ensures Prefixed(p, s) == Prefixed(p, s[..|s| - 1]) + [p + s[|s| - 1]]
  {
  }

  lemma ApplyLast(cfg: Config, u: User, a: seq<string>, op: string, m: User)
    requires ApplyAll(cfg, u, a) == Done(m)
    ensures ApplyAll(cfg, u, a + [op]) == Apply(cfg, m, Parse(op))
  {
    hide Apply, Parse, ApplyAll;
    ApplyConcat(cfg, u, a, [op]);
    ApplyOne(cfg, m, op);
  }

  lemma AddNew(s: seq<string>)
    requires s != [] && Distinct(s)
    ensures Distinct(s[..|s| - 1]) && Add(s[..|s| - 1], s[|s| - 1]) == s
  {
  }

  lemma {:induction false} HashesReplay(cfg: Config, u: User, s: seq<string>)
    requires PasswordsOk(false, s) && u.passwords == []
    ensures ApplyAll(cfg, u, Prefixed("#", s)) == Done(u.(passwords := s, noPass := u.noPass && s == []))
    decreases |s|
  {
    hide Parse, IsHash;
    if s != [] {
      var init, last := s[..|s| - 1], s[|s| - 1];
      AddNew(s);
      HashesReplay(cfg, u, init);
      PrefixedLast("#", s);
      HashParses(last);
      ApplyLast(cfg, u, Prefixed("#", init), "#" + last, u.(passwords := init, noPass := u.noPass && init == []));
    }
  }

  lemma {:induction false} KeysReplay(cfg: Config, u: User, s: seq<string>)
    requires PatternsOk(false, s) && u.patterns == [] && !u.allKeys
    ensures ApplyAll(cfg, u, Prefixed("~", s)) == Done(u.(patterns := s))
    decreases |s|
  {
    hide Parse, HasSpaces;
    if s != [] {
      var init, last := s[..|s| - 1], s[|s| - 1];
      AddNew(s);
      KeysReplay(cfg, u, init);
      PrefixedLast("~", s);
      NoNul(last);
      KeyParses(last);
      ApplyLast(cfg, u, Prefixed("~", init), "~" + last, u.(patterns := init));
    }
  }

  lemma {:induction false} ChannelsReplay(cfg: Config, u: User, s: seq<string>)
    requires PatternsOk(false, s) && u.channels == [] && !u.allChannels
    ensures ApplyAll(cfg, u, Prefixed("&", s)) == Done(u.(channels := s))
    decreases |s|
  {
    hide Parse, HasSpaces;
    if s != [] {
      var init, last := s[..|s| - 1], s[|s| - 1];
      AddNew(s);
      ChannelsReplay(cfg, u, init);
      PrefixedLast("&", s);
      NoNul(last);
      ChannelParses(last);
      ApplyLast(cfg, u, Prefixed("&", init), "&" + last, u.(channels := init));
    }
  }

  lemma NoNul(s: string)
    requires !HasSpaces(s)
    ensures NUL !in s
  {
  }

  // --------------------------------------------------------------- Single commands

  lemma {:induction false} FindSelf(table: seq<Command>, k: nat)
    requires k < |table| && forall i, j | 0 <= i < j < |table| :: table[i].name != table[j].name
    ensures Find(table, table[k].name) == Some(table[k])
    decreases |table|
  {
    if k > 0 {
      assert table[0].name != table[k].name;
      FindSelf(table[1..], k - 1);
    }
  }

  lemma LookupSelf(cfg: Config, k: nat)
    requires ConfigOk(cfg) && k < |cfg.table|
    ensures Lookup(cfg, cfg.table[k].name) == Some(cfg.table[k]) && NameOk(cfg.table[k].name)
  {
    FindSelf(cfg.table, k);
    NameFacts(cfg.table[k].name);
    hide Lower, CStr, Find;
  }

  function SubTokens(name: string, s: seq<string>): seq<string> { Prefixed("+" + name + "|", s) }

  lemma NewSub(s: seq<string>)
    requires s != [] && SubListOk(s)
    ensures !HasSub(s[..|s| - 1], s[|s| - 1]) && (s[..|s| - 1] != [] ==> SubListOk(s[..|s| - 1]))
    ensures s[|s| - 1] != [] && NUL !in s[|s| - 1]
  {
  }

  function WithSubs(u: User, id: nat, s: seq<string>): User {
    if s == [] then u else u.(subs := u.subs[id := s])
  }

  lemma Overwrite(m: map<nat, seq<string>>, id: nat, a: seq<string>, b: seq<string>)
    ensures m[id := a][id := b] == m[id := b]
  {
  }

  lemma AddSubToList(u: User, id: nat, init: seq<string>, last: string)
    requires id !in u.subs && !HasSub(init, last)
    ensures AddSub(WithSubs(u, id, init), id, last) == WithSubs(u, id, init + [last])
  {
    hide HasSub;
    Overwrite(u.subs, id, init, init + [last]);
    if init == [] {
      assert SubsOf(u, id) == [] && [] + [last] == [last];
    }
  }

  lemma AllowSubApplies(cfg: Config, u: User, k: nat, init: seq<string>, last: string)
    requires ConfigOk(cfg) && k < |cfg.table| && cfg.table[k].id !in u.bits && cfg.table[k].id !in u.subs
    requires !HasSub(init, last) && last != [] && NUL !in last
    ensures Apply(cfg, WithSubs(u, cfg.table[k].id, init), Parse("+" + cfg.table[k].name + "|" + last))
         == Done(WithSubs(u, cfg.table[k].id, init + [last]))
  {
    hide Parse, ConfigOk, NameOk, Lookup, HasSub, AddSub;
    LookupSelf(cfg, k);
    AllowSubParses(cfg.table[k].name, last);
    AddSubToList(u, cfg.table[k].id, init, last);
  }

  lemma {:induction false} SubsReplay(cfg: Config, u: User, k: nat, s: seq<string>)
    requires ConfigOk(cfg) && k < |cfg.table| && (s == [] || SubListOk(s))
    requires cfg.table[k].id !in u.bits && cfg.table[k].id !in u.subs
    ensures ApplyAll(cfg, u, SubTokens(cfg.table[k].name, s)) == Done(WithSubs(u, cfg.table[k].id, s))
    decreases |s|
  {
    hide Parse, ConfigOk, SubListOk, HasSub, Apply, WithSubs;
    var name, id := cfg.table[k].name, cfg.table[k].id;
    if s == [] {
      NoSubs(u, id);
    } else {
      var init, last := s[..|s| - 1], s[|s| - 1];
      NewSub(s);
      SubsReplay(cfg, u, k, init);
      PrefixedLast("+" + name + "|", s);
      AllowSubApplies(cfg, u, k, init, last);
      ApplyLast(cfg, u, SubTokens(name, init), "+" + name + "|" + last, WithSubs(u, id, init));
      assert init + [last] == s;
    }
  }

  lemma NoSubs(u: User, id: nat)
    ensures WithSubs(u, id, []) == u
  {
  }

  // --------------------------------------------------------------- The categories

  /** How many commands of a category have their bit set, or not set. */
  function Count(table: seq<Command>, bits: set<nat>, category: string, on: bool): (n: nat)
    ensures n <= |table|
  {
    if table == [] then 0
    else
      var last := table[|table| - 1];
      Count(table[..|table| - 1], bits, category, on) +
      (if category in last.categories && (last.id in bits) == on then 1 else 0)
  }

  /** The commands of a category that agree with the user, and those that do not. */
  function Same(cfg: Config, additive: bool, bits: set<nat>, j: nat): nat
    requires j < CATEGORY_COUNT
  {
    Count(cfg.table, bits, CategoryName(j), additive)
  }

  function Diff(cfg: Config, additive: bool, bits: set<nat>, j: nat): nat
    requires j < CATEGORY_COUNT
  {
    Count(cfg.table, bits, CategoryName(j), !additive)
  }

  predicate Fits(cfg: Config, additive: bool, bits: set<nat>, applied: set<nat>, j: nat) {
    j < CATEGORY_COUNT && j !in applied && Same(cfg, additive, bits, j) > Diff(cfg, additive, bits, j)
  }

  /** Fewer differences are better, then more in common, then an earlier place in the list. */
  predicate Better(cfg: Config, additive: bool, bits: set<nat>, i: nat, j: nat)
    requires i < CATEGORY_COUNT && j < CATEGORY_COUNT
  {
    var d, e := Diff(cfg, additive, bits, i), Diff(cfg, additive, bits, j);
    var m, n := Same(cfg, additive, bits, i), Same(cfg, additive, bits, j);
    d < e || (d == e && (m > n || (m == n && i <= j)))
  }

  predicate IsBest(cfg: Config, additive: bool, bits: set<nat>, applied: set<nat>, upto: nat, best: Option<nat>)
    requires upto <= CATEGORY_COUNT
  {
    if best.None? then forall j | 0 <= j < upto :: !Fits(cfg, additive, bits, applied, j)
    else
      best.value < upto && Fits(cfg, additive, bits, applied, best.value) &&
      forall j | 0 <= j < upto && Fits(cfg, additive, bits, applied, j) :: Better(cfg, additive, bits, best.value, j)
  }

  /** The best category among the first `n`. */
  function Best(cfg: Config, additive: bool, bits: set<nat>, applied: set<nat>, n: nat): Option<nat>
    requires n <= CATEGORY_COUNT
  {
    if n == 0 then None
    else
      var b := Best(cfg, additive, bits, applied, n - 1);
      var j := n - 1;
      if Fits(cfg, additive, bits, applied, j) && (b.None? || !BestStays(cfg, additive, bits, b.value, j)) then Some(j)
      else b
  }

  predicate BestStays(cfg: Config, additive: bool, bits: set<nat>, b: nat, j: nat) {
    b < CATEGORY_COUNT && j < CATEGORY_COUNT &&
    !(Diff(cfg, additive, bits, j) < Diff(cfg, additive, bits, b) ||
      (Diff(cfg, additive, bits, j) == Diff(cfg, additive, bits, b) &&
       Same(cfg, additive, bits, j) > Same(cfg, additive, bits, b)))
  }

  lemma {:induction false} BestIsBest(cfg: Config, additive: bool, bits: set<nat>, applied: set<nat>, n: nat)
    requires n <= CATEGORY_COUNT
    ensures IsBest(cfg, additive, bits, applied, n, Best(cfg, additive, bits, applied, n))
    decreases n
  {
    hide Same, Diff;
    if n > 0 {
      BestIsBest(cfg, additive, bits, applied, n - 1);
    }
  }

  function Toggled(cfg: Config, bits: set<nat>, add: bool, j: nat): set<nat>
    requires j < CATEGORY_COUNT
  {
    if add then bits + IdsIn(cfg.table, CategoryName(j)) else bits - IdsIn(cfg.table, CategoryName(j))
  }

  /** The categories, best first, with the stand-in's bits flipped to show that they need no more describing. */
  function Greedy(cfg: Config, additive: bool, temp: set<nat>, applied: set<nat>): (cats: seq<nat>)
    ensures forall i | 0 <= i < |cats| :: cats[i] < CATEGORY_COUNT
    decreases FirstBits(CATEGORY_COUNT) - applied
  {
    var b := Best(cfg, additive, temp, applied, CATEGORY_COUNT);
    BestIsBest(cfg, additive, temp, applied, CATEGORY_COUNT);
    if b.None? then []
    else [b.value] + Greedy(cfg, additive, Toggled(cfg, temp, !additive, b.value), applied + {b.value})
  }

  function CategoryTokens(additive: bool, cats: seq<nat>): seq<string>
    requires forall i | 0 <= i < |cats| :: cats[i] < CATEGORY_COUNT
  {
    seq(|cats|, i requires 0 <= i < |cats| => (if additive then "+@" else "-@") + CategoryName(cats[i]))
  }

  /** The other stand-in: the bits that the categories describe. */
  function FakeBits(cfg: Config, bits: set<nat>, additive: bool, cats: seq<nat>): set<nat>
    requires forall i | 0 <= i < |cats| :: cats[i] < CATEGORY_COUNT
    decreases |cats|
  {
    if cats == [] then bits
    else Toggled(cfg, FakeBits(cfg, bits, additive, cats[..|cats| - 1]), additive, cats[|cats| - 1])
  }

  lemma CategoryRuleApplies(cfg: Config, u: User, allow: bool, name: string)
    requires IsCategory(name) && Lower(name) == name
    ensures Apply(cfg, u, Category(allow, name)) == Done(SetBits(u, IdsIn(cfg.table, name), allow))
  {
  }

  lemma CategoryApplies(cfg: Config, u: User, additive: bool, j: nat)
    requires j < CATEGORY_COUNT
    ensures Apply(cfg, u, Parse((if additive then "+@" else "-@") + CategoryName(j)))
         == Done(SetBits(u, IdsIn(cfg.table, CategoryName(j)), additive))
  {
    hide Parse, Apply, IdsIn, SetBits, Letters, Lower, CategoryName, IsCategory;
    var name := CategoryName(j);
    CategoryLetters(j);
    LettersSeen(name);
    CategoryRuleApplies(cfg, u, additive, name);
    if additive { PlusCategoryParses(name); } else { MinusCategoryParses(name); }
  }

  lemma SetBitsHere(u: User, ids: set<nat>, value: bool)
    requires u.subs == map[]
    ensures var r := SetBits(u, ids, value);
            r == u.(bits := if value then u.bits + ids else u.bits - ids, allCommands := r.allCommands)
  {
  }

  lemma CategoryTokensLast(additive: bool, cats: seq<nat>)
    requires cats != [] && forall i | 0 <= i < |cats| :: cats[i] < CATEGORY_COUNT
    ensures CategoryTokens(additive, cats)
         == CategoryTokens(additive, cats[..|cats| - 1]) +
            [(if additive then "+@" else "-@") + CategoryName(cats[|cats| - 1])]
  {
  }

  /** The flag is the only thing that the categories may change besides the bits. */
  lemma {:induction false} CategoriesReplay(cfg: Config, u: User, additive: bool, cats: seq<nat>) returns (r: User)
    requires u.subs == map[] && forall i | 0 <= i < |cats| :: cats[i] < CATEGORY_COUNT
    ensures ApplyAll(cfg, u, CategoryTokens(additive, cats)) == Done(r)
    ensures r == u.(bits := FakeBits(cfg, u.bits, additive, cats), allCommands := r.allCommands)
    decreases |cats|
  {
    hide Parse, Apply, IdsIn, SetBits, CategoryTokens, CategoryName;
    if cats == [] {
      r := u;
      assert CategoryTokens(additive, cats) == [] by { NoCategoryTokens(additive); }
    } else {
      var init, j := cats[..|cats| - 1], cats[|cats| - 1];
      var m := CategoriesReplay(cfg, u, additive, init);
      r := SetBits(m, IdsIn(cfg.table, CategoryName(j)), additive);
      CategoryApplies(cfg, m, additive, j);
      SetBitsHere(m, IdsIn(cfg.table, CategoryName(j)), additive);
      CategoryTokensLast(additive, cats);
      ApplyLast(cfg, u, CategoryTokens(additive, init), (if additive then "+@" else "-@") + CategoryName(j), m);
    }
  }

  lemma NoCategoryTokens(additive: bool)
    ensures CategoryTokens(additive, []) == []
  {
  }

  // ----------------------------------------------------- The commands that are left

  function FixOne(u: User, fake: set<nat>, cmd: Command): seq<string> {
    (if (cmd.id in u.bits) == (cmd.id in fake) then []
     else [(if cmd.id in u.bits then "+" else "-") + cmd.name]) +
    (if cmd.id in u.bits then [] else SubTokens(cmd.name, SubsOf(u, cmd.id)))
  }

  function Fixed(u: User, fake: set<nat>, cmd: Command): set<nat> {
    if cmd.id in u.bits then fake + {cmd.id} else fake - {cmd.id}
  }

  /** The rules for the first `k` commands, and the stand-in's bits behind them. */
  function FixTokens(cfg: Config, u: User, fake: set<nat>, k: nat): seq<string>
    requires k <= |cfg.table|
  {
    if k == 0 then [] else FixTokens(cfg, u, fake, k - 1) + FixOne(u, FixBits(cfg, u, fake, k - 1), cfg.table[k - 1])
  }

  function FixBits(cfg: Config, u: User, fake: set<nat>, k: nat): set<nat>
    requires k <= |cfg.table|
  {
    if k == 0 then fake else Fixed(u, FixBits(cfg, u, fake, k - 1), cfg.table[k - 1])
  }

  /** The bits of the commands looked at are the user's, and the others as they were. */
  lemma {:induction false} FixBitsAre(cfg: Config, u: User, fake: set<nat>, k: nat, id: nat)
    requires k <= |cfg.table|
    ensures id in FixBits(cfg, u, fake, k) <==> id in (if id in TableIds(cfg.table[..k]) then u.bits else fake)
    decreases k
  {
    if k > 0 {
      FixBitsAre(cfg, u, fake, k - 1, id);
      IdsStep(cfg.table, k, id);
    }
  }

  lemma IdsStep(table: seq<Command>, k: nat, id: nat)
    requires 0 < k <= |table|
    ensures id in TableIds(table[..k]) <==> id in TableIds(table[..k - 1]) || id == table[k - 1].id
  {
  }

  function SubsUpTo(cfg: Config, u: User, k: nat): map<nat, seq<string>>
    requires k <= |cfg.table|
  {
    map id | id in u.subs && id in TableIds(cfg.table[..k]) :: u.subs[id]
  }

  lemma CommandRuleApplies(cfg: Config, r: User, k: nat)
    requires ConfigOk(cfg) && k < |cfg.table|
    ensures Apply(cfg, r, Allow(cfg.table[k].name)) == Done(SetBits(r, {cfg.table[k].id}, true))
    ensures Apply(cfg, r, Deny(cfg.table[k].name)) == Done(SetBits(r, {cfg.table[k].id}, false))
  {
    hide ConfigOk, NameOk, Lookup, SetBits;
    LookupSelf(cfg, k);
  }

  lemma SetOneBit(u: User, r: User, cmd: Command)
    requires cmd.id !in r.subs
    ensures SetBits(r, {cmd.id}, cmd.id in u.bits)
         == r.(bits := Fixed(u, r.bits, cmd), allCommands := r.allCommands && cmd.id in u.bits)
  {
  }

  lemma FixOneApplies(cfg: Config, u: User, r: User, k: nat)
    requires ConfigOk(cfg) && k < |cfg.table| && cfg.table[k].id !in r.subs
    ensures Apply(cfg, r, Parse((if cfg.table[k].id in u.bits then "+" else "-") + cfg.table[k].name))
         == Done(r.(bits := Fixed(u, r.bits, cfg.table[k]), allCommands := r.allCommands && cfg.table[k].id in u.bits))
  {
    hide Parse, Apply, ConfigOk, NameOk, SetBits, Fixed;
    LookupSelf(cfg, k);
    CommandRuleApplies(cfg, r, k);
    SetOneBit(u, r, cfg.table[k]);
    if cfg.table[k].id in u.bits { AllowParses(cfg.table[k].name); } else { DenyParses(cfg.table[k].name); }
  }

  lemma SubsStep(cfg: Config, u: User, k: nat)
    requires k < |cfg.table|
    ensures SubsUpTo(cfg, u, k + 1)
         == if cfg.table[k].id in u.subs then SubsUpTo(cfg, u, k)[cfg.table[k].id := u.subs[cfg.table[k].id]]
            else SubsUpTo(cfg, u, k)
  {
    hide TableIds;
    forall x ensures x in TableIds(cfg.table[..k + 1]) <==> x in TableIds(cfg.table[..k]) || x == cfg.table[k].id {
      IdsStep(cfg.table, k + 1, x);
    }
  }

  lemma UserSubs(cfg: Config, u: User, k: nat)
    requires ConfigOk(cfg) && UserOk(cfg, u) && k < |cfg.table|
    ensures cfg.table[k].id !in SubsUpTo(cfg, u, k)
    ensures cfg.table[k].id in u.subs ==> cfg.table[k].id !in u.bits && SubListOk(u.subs[cfg.table[k].id])
    ensures cfg.table[k].id in u.subs ==> u.subs[cfg.table[k].id] != []
  {
  }

  /** The rule for a command that differs, if any. */
  lemma FixRuleReplay(cfg: Config, u: User, m: User, k: nat) returns (r: User)
    requires ConfigOk(cfg) && k < |cfg.table| && cfg.table[k].id !in m.subs
    ensures var id := cfg.table[k].id;
            ApplyAll(cfg, m, if (id in u.bits) == (id in m.bits) then []
                             else [(if id in u.bits then "+" else "-") + cfg.table[k].name]) == Done(r)
    ensures r == m.(bits := Fixed(u, m.bits, cfg.table[k]), allCommands := r.allCommands)
  {
    hide Parse, ConfigOk, Apply;
    var cmd := cfg.table[k];
    if (cmd.id in u.bits) == (cmd.id in m.bits) {
      r := m;
      assert Fixed(u, m.bits, cmd) == m.bits;
    } else {
      FixOneApplies(cfg, u, m, k);
      ApplyOne(cfg, m, (if cmd.id in u.bits then "+" else "-") + cmd.name);
      r := m.(bits := Fixed(u, m.bits, cmd), allCommands := m.allCommands && cmd.id in u.bits);
    }
  }

  /** The rule of a command, then those of its subcommands. */
  lemma FixOneReplay(cfg: Config, u: User, m: User, k: nat) returns (r: User)
    requires ConfigOk(cfg) && UserOk(cfg, u) && k < |cfg.table| && m.subs == SubsUpTo(cfg, u, k)
    ensures ApplyAll(cfg, m, FixOne(u, m.bits, cfg.table[k])) == Done(r)
    ensures r == m.(bits := Fixed(u, m.bits, cfg.table[k]), subs := SubsUpTo(cfg, u, k + 1),
                    allCommands := r.allCommands)
  {
    hide ConfigOk, UserOk, SubsUpTo, ApplyAll, SubListOk, SubTokens;
    UserSubs(cfg, u, k);
    SubsStep(cfg, u, k);
    var cmd := cfg.table[k];
    var q := FixRuleReplay(cfg, u, m, k);
    var first := if (cmd.id in u.bits) == (cmd.id in m.bits) then []
                 else [(if cmd.id in u.bits then "+" else "-") + cmd.name];
    if cmd.id in u.bits {
      r := q;
      assert FixOne(u, m.bits, cmd) == first;
    } else {
      var subs := SubTokens(cmd.name, SubsOf(u, cmd.id));
      assert FixOne(u, m.bits, cmd) == first + subs;
      hide FixOne;
      SubsReplay(cfg, q, k, SubsOf(u, cmd.id));
      ApplyConcat(cfg, m, first, subs);
      r := WithSubs(q, cmd.id, SubsOf(u, cmd.id));
    }
  }

  lemma {:induction false} FixReplay(cfg: Config, u: User, r0: User, k: nat) returns (r: User)
    requires ConfigOk(cfg) && UserOk(cfg, u) && k <= |cfg.table| && r0.subs == map[]
    ensures ApplyAll(cfg, r0, FixTokens(cfg, u, r0.bits, k)) == Done(r)
    ensures r == r0.(bits := FixBits(cfg, u, r0.bits, k), subs := SubsUpTo(cfg, u, k), allCommands := r.allCommands)
    decreases k
  {
    hide ConfigOk, UserOk, SubsUpTo, FixOne, Fixed, Apply, Parse;
    if k == 0 {
      r := r0;
      NoSubsYet(cfg, u);
    } else {
      var m := FixReplay(cfg, u, r0, k - 1);
      r := FixOneReplay(cfg, u, m, k - 1);
      Then(cfg, r0, FixTokens(cfg, u, r0.bits, k - 1), m, FixOne(u, m.bits, cfg.table[k - 1]), r);
    }
  }

  lemma NoSubsYet(cfg: Config, u: User)
    ensures SubsUpTo(cfg, u, 0) == map[]
  {
  }

  // --------------------------------------------------------------- The command rules

  /** Whether the description starts from no commands and adds. */
  predicate Additive(u: User) { RESERVED !in u.bits }

  predicate Subtractive(u: User) { RESERVED in u.bits }

  function BaseBits(u: User): set<nat> { if RESERVED in u.bits then AllBits() else {} }

  function Categories(cfg: Config, u: User): (cats: seq<nat>)
    ensures forall i | 0 <= i < |cats| :: cats[i] < CATEGORY_COUNT
  {
    Greedy(cfg, Additive(u), u.bits, {})
  }

  /** The bits of the stand-in when the categories are done. */
  function FakeUserBits(cfg: Config, u: User): set<nat> {
    FakeBits(cfg, BaseBits(u), Additive(u), Categories(cfg, u))
  }

  function CommandTokens(cfg: Config, u: User): seq<string> {
    [if RESERVED in u.bits then "+@all" else "-@all"] +
    CategoryTokens(Additive(u), Categories(cfg, u)) +
    FixTokens(cfg, u, FakeUserBits(cfg, u), |cfg.table|)
  }

  lemma {:induction false} FakeBitsOk(cfg: Config, bits: set<nat>, additive: bool, cats: seq<nat>)
    requires ConfigOk(cfg) && BitsOk(cfg, bits) && forall i | 0 <= i < |cats| :: cats[i] < CATEGORY_COUNT
    ensures BitsOk(cfg, FakeBits(cfg, bits, additive, cats))
    ensures RESERVED in FakeBits(cfg, bits, additive, cats) <==> RESERVED in bits
    decreases |cats|
  {
    if cats != [] {
      var init, j := cats[..|cats| - 1], cats[|cats| - 1];
      FakeBitsOk(cfg, bits, additive, init);
      IdsInTable(cfg.table, CategoryName(j));
      SetBitsBits(cfg, FakeBits(cfg, bits, additive, init), IdsIn(cfg.table, CategoryName(j)));
      ReservedIsFree(cfg);
      hide BitsOk, ConfigOk, IdsIn;
    }
  }

  lemma ReservedIsFree(cfg: Config)
    requires ConfigOk(cfg)
    ensures RESERVED !in TableIds(cfg.table) && RESERVED in AllBits()
  {
  }

  lemma BaseBitsOk(cfg: Config, u: User)
    requires ConfigOk(cfg)
    ensures BitsOk(cfg, BaseBits(u)) && (RESERVED in BaseBits(u) <==> RESERVED in u.bits)
  {
  }

  /** The stand-in ends up with the user's bits, so that the server need not stop. */
  lemma BitmapsMatch(cfg: Config, u: User)
    requires ConfigOk(cfg) && UserOk(cfg, u)
    ensures FixBits(cfg, u, FakeUserBits(cfg, u), |cfg.table|) == u.bits
  {
    BaseBitsOk(cfg, u);
    FakeBitsOk(cfg, BaseBits(u), Additive(u), Categories(cfg, u));
    var fake := FakeUserBits(cfg, u);
    assert BitsOk(cfg, fake) && BitsOk(cfg, u.bits);
    assert cfg.table[..|cfg.table|] == cfg.table;
    hide FakeUserBits, ConfigOk, UserOk, TableIds, AllBits;
    forall id: nat ensures id in FixBits(cfg, u, fake, |cfg.table|) <==> id in u.bits {
      FixBitsAre(cfg, u, fake, |cfg.table|, id);
    }
  }

  lemma BaseReplay(cfg: Config, u: User, r: User)
    ensures ApplyAll(cfg, r, [if RESERVED in u.bits then "+@all" else "-@all"])
         == Done(r.(bits := BaseBits(u), allCommands := RESERVED in u.bits, subs := map[]))
  {
    hide Parse, AllBits;
    AllCommandsParses();
    NoCommandsParses();
    ApplyOne(cfg, r, if RESERVED in u.bits then "+@all" else "-@all");
  }

  lemma AllSubs(cfg: Config, u: User)
    requires UserOk(cfg, u)
    ensures SubsUpTo(cfg, u, |cfg.table|) == u.subs
  {
    assert cfg.table[..|cfg.table|] == cfg.table;
    hide SubListOk, TableIds, PatternsOk, PasswordsOk, BitsOk;
  }

  /** The command rules restore the bits and the subcommands of the user they describe. */
  lemma CommandsReplay(cfg: Config, u: User, r0: User) returns (r: User)
    requires ConfigOk(cfg) && UserOk(cfg, u)
    ensures ApplyAll(cfg, r0, CommandTokens(cfg, u)) == Done(r)
    ensures r == r0.(bits := u.bits, subs := u.subs, allCommands := r.allCommands)
  {
    hide ConfigOk, UserOk, ApplyAll, FixTokens, FixBits, CategoryTokens, Categories, BaseBits, SubsUpTo;
    var base := [if RESERVED in u.bits then "+@all" else "-@all"];
    var cats := CategoryTokens(Additive(u), Categories(cfg, u));
    var fix := FixTokens(cfg, u, FakeUserBits(cfg, u), |cfg.table|);
    BaseReplay(cfg, u, r0);
    var r1 := r0.(bits := BaseBits(u), allCommands := RESERVED in u.bits, subs := map[]);
    var r2 := CategoriesReplay(cfg, r1, Additive(u), Categories(cfg, u));
    r := FixReplay(cfg, u, r2, |cfg.table|);
    ApplyConcat(cfg, r0, base, cats);
    ApplyConcat(cfg, r0, base + cats, fix);
    BitmapsMatch(cfg, u);
    AllSubs(cfg, u);
  }

  // --------------------------------------------------------------- The other rules

  function If(b: bool, w: string): seq<string> { if b then [w] else [] }

  function FlagTokens(u: User): seq<string> {
    If(u.enabled, "on") + If(u.disabled, "off") + If(u.noPass, "nopass") +
    If(u.skipSanitize, "skip-sanitize-payload") + If(u.sanitize, "sanitize-payload")
  }

  function KeyTokens(u: User): seq<string> { if u.allKeys then ["~*"] else Prefixed("~", u.patterns) }

  function ChannelTokens(u: User): seq<string> {
    if u.allChannels then ["&*"] else ["resetchannels"] + Prefixed("&", u.channels)
  }

  /** The rules that describe a user. */
  function Describe(cfg: Config, u: User): seq<string> {
    FlagTokens(u) + Prefixed("#", u.passwords) + KeyTokens(u) + ChannelTokens(u) + CommandTokens(cfg, u)
  }

  lemma IfReplay(cfg: Config, u: User, b: bool, w: string, r: User)
    requires if b then Apply(cfg, u, Parse(w)) == Done(r) else r == u
    ensures ApplyAll(cfg, u, If(b, w)) == Done(r)
  {
    hide Apply, Parse;
    if b { ApplyOne(cfg, u, w); }
  }

  lemma OnOffReplay(cfg: Config, u: User, r0: User)
    requires u.enabled != u.disabled && !r0.enabled && r0.disabled
    ensures ApplyAll(cfg, r0, If(u.enabled, "on") + If(u.disabled, "off"))
         == Done(r0.(enabled := u.enabled, disabled := u.disabled))
  {
  }

  lemma NoPassReplay(cfg: Config, u: User, r0: User)
    requires !r0.noPass && r0.passwords == []
    ensures ApplyAll(cfg, r0, If(u.noPass, "nopass")) == Done(r0.(noPass := u.noPass))
  {
    hide Parse, ApplyAll, If;
    NoPassParses();
    IfReplay(cfg, r0, u.noPass, "nopass", r0.(noPass := u.noPass));
  }

  lemma SanitizeReplay(cfg: Config, u: User, r0: User)
    requires !(u.skipSanitize && u.sanitize) && !r0.skipSanitize
    ensures ApplyAll(cfg, r0, If(u.skipSanitize, "skip-sanitize-payload") + If(u.sanitize, "sanitize-payload"))
         == Done(r0.(skipSanitize := u.skipSanitize, sanitize := u.sanitize || (r0.sanitize && !u.skipSanitize)))
  {
    hide Parse, ApplyAll, If;
    SkipSanitizeParses();
    SanitizeParses();
    var r1 := r0.(skipSanitize := u.skipSanitize, sanitize := r0.sanitize && !u.skipSanitize);
    var r2 := r1.(sanitize := u.sanitize || (r0.sanitize && !u.skipSanitize));
    IfReplay(cfg, r0, u.skipSanitize, "skip-sanitize-payload", r1);
    IfReplay(cfg, r1, u.sanitize, "sanitize-payload", r2);
    Then(cfg, r0, If(u.skipSanitize, "skip-sanitize-payload"), r1, If(u.sanitize, "sanitize-payload"), r2);
  }

  /** The flags of `u` on a user that has no flag set but to be disabled, and perhaps to be sanitized. */
  lemma FlagsReplay(cfg: Config, u: User, r0: User)
    requires u.enabled != u.disabled && !(u.skipSanitize && u.sanitize)
    requires !r0.enabled && r0.disabled && !r0.noPass && r0.passwords == [] && !r0.skipSanitize
    ensures ApplyAll(cfg, r0, FlagTokens(u))
         == Done(r0.(enabled := u.enabled, disabled := u.disabled, noPass := u.noPass,
                     skipSanitize := u.skipSanitize, sanitize := u.sanitize || (r0.sanitize && !u.skipSanitize)))
  {
    hide Parse, ApplyAll, If;
    var r1 := r0.(enabled := u.enabled, disabled := u.disabled);
    var r2 := r1.(noPass := u.noPass);
    var r3 := r2.(skipSanitize := u.skipSanitize, sanitize := u.sanitize || (r0.sanitize && !u.skipSanitize));
    OnOffReplay(cfg, u, r0);
    NoPassReplay(cfg, u, r1);
    SanitizeReplay(cfg, u, r2);
    var a := If(u.enabled, "on") + If(u.disabled, "off");
    var b := If(u.skipSanitize, "skip-sanitize-payload") + If(u.sanitize, "sanitize-payload");
    Then(cfg, r0, a, r1, If(u.noPass, "nopass"), r2);
    Then(cfg, r0, a + If(u.noPass, "nopass"), r2, b, r3);
    assert FlagTokens(u) == a + If(u.noPass, "nopass") + b;
  }

  lemma KeyTokensReplay(cfg: Config, u: User, r0: User)
    requires PatternsOk(u.allKeys, u.patterns) && !r0.allKeys && r0.patterns == []
    ensures ApplyAll(cfg, r0, KeyTokens(u)) == Done(r0.(allKeys := u.allKeys, patterns := u.patterns))
  {
    hide Parse;
    if u.allKeys {
      AllKeysParses();
      ApplyOne(cfg, r0, "~*");
    } else {
      KeysReplay(cfg, r0, u.patterns);
    }
  }

  lemma ChannelTokensReplay(cfg: Config, u: User, r0: User)
    requires PatternsOk(u.allChannels, u.channels)
    ensures ApplyAll(cfg, r0, ChannelTokens(u)) == Done(r0.(allChannels := u.allChannels, channels := u.channels))
  {
    hide Parse;
    if u.allChannels {
      AllChannelsParses();
      ApplyOne(cfg, r0, "&*");
    } else {
      ResetChannelsParses();
      ApplyOne(cfg, r0, "resetchannels");
      var r1 := r0.(allChannels := false, channels := []);
      ChannelsReplay(cfg, r1, u.channels);
      Then(cfg, r0, ["resetchannels"], r1, Prefixed("&", u.channels), r1.(channels := u.channels));
    }
  }

  // ------------------------------------------------------- The flag for all commands

  lemma {:induction false} ApplyAllOk(cfg: Config, u: User, ops: seq<string>)
    requires ConfigOk(cfg) && UserOk(cfg, u)
    ensures ApplyAll(cfg, u, ops).Done? ==> UserOk(cfg, ApplyAll(cfg, u, ops).user)
    decreases |ops|
  {
    hide ConfigOk, UserOk, Apply, Parse;
    if ops != [] {
      RuleOk(cfg, u, ops[0]);
      if Apply(cfg, u, Parse(ops[0])).Done? {
        ApplyAllOk(cfg, Apply(cfg, u, Parse(ops[0])).user, ops[1..]);
      }
    }
  }

  lemma {:induction false} NoneOff(table: seq<Command>, category: string)
    requires forall i | 0 <= i < |table| :: table[i].id in AllBits()
    ensures Count(table, AllBits(), category, false) == 0
    decreases |table|
  {
    hide AllBits;
    if table != [] { NoneOff(table[..|table| - 1], category); }
  }

  lemma NoCategories(cfg: Config, u: User)
    requires ConfigOk(cfg) && u.bits == AllBits()
    ensures RESERVED in u.bits && Categories(cfg, u) == []
  {
    ReservedIsFree(cfg);
    BestIsBest(cfg, false, u.bits, {}, CATEGORY_COUNT);
    assert forall i | 0 <= i < |cfg.table| :: cfg.table[i].id in AllBits();
    hide AllBits, Best, ConfigOk;
    var b := Best(cfg, false, u.bits, {}, CATEGORY_COUNT);
    if b.Some? {
      NoneOff(cfg.table, CategoryName(b.value));
    }
  }

  lemma NothingInOne(u: User, cmd: Command)
    requires cmd.id in u.bits
    ensures FixOne(u, u.bits, cmd) == [] && Fixed(u, u.bits, cmd) == u.bits
  {
  }

  lemma {:induction false} NothingToFix(cfg: Config, u: User, k: nat)
    requires k <= |cfg.table| && forall i | 0 <= i < |cfg.table| :: cfg.table[i].id in u.bits
    ensures FixTokens(cfg, u, u.bits, k) == [] && FixBits(cfg, u, u.bits, k) == u.bits
    decreases k
  {
    hide FixOne, Fixed;
    if k > 0 {
      NothingToFix(cfg, u, k - 1);
      NothingInOne(u, cfg.table[k - 1]);
    }
  }

  lemma TableInAllBits(cfg: Config)
    requires ConfigOk(cfg)
    ensures forall i | 0 <= i < |cfg.table| :: cfg.table[i].id in AllBits()
  {
  }

  /** A user that may run all commands, those to come included, is described by one rule. */
  lemma OnlyAll(cfg: Config, u: User)
    requires ConfigOk(cfg) && u.bits == AllBits()
    ensures CommandTokens(cfg, u) == ["+@all"]
  {
    hide ConfigOk, AllBits, FixTokens, FixBits, Categories;
    NoCategories(cfg, u);
    TableInAllBits(cfg);
    NothingToFix(cfg, u, |cfg.table|);
    assert CategoryTokens(false, []) == [] by { NoCategoryTokens(false); }
  }

  // ---------------------------------------------------------------- The round trip

  lemma UserParts(cfg: Config, u: User)
    requires UserOk(cfg, u)
    ensures u.enabled != u.disabled && !(u.skipSanitize && u.sanitize) && (u.noPass ==> u.passwords == [])
    ensures PatternsOk(u.allKeys, u.patterns) && PatternsOk(u.allChannels, u.channels)
    ensures PasswordsOk(false, u.passwords)
  {
  }

  /** All of a user but what concerns commands. */
  function WithoutCommands(cfg: Config, u: User, sanitize: bool): User {
    u.(bits := {}, subs := map[], allCommands := false, sanitize := u.sanitize || (sanitize && !u.skipSanitize))
  }

  function FlagAndPasswordTokens(u: User): seq<string> { FlagTokens(u) + Prefixed("#", u.passwords) }

  lemma FlagsAndPasswordsReplay(cfg: Config, u: User, sanitize: bool)
    requires UserOk(cfg, u)
    ensures ApplyAll(cfg, Fresh(cfg).(sanitize := sanitize), FlagAndPasswordTokens(u))
         == Done(WithoutCommands(cfg, u, sanitize).(allKeys := false, patterns := [],
                                                    allChannels := cfg.allChannelsByDefault, channels := []))
  {
    hide UserOk, ApplyAll, FlagTokens, Prefixed, PasswordsOk, PatternsOk;
    UserParts(cfg, u);
    var r0 := Fresh(cfg).(sanitize := sanitize);
    FlagsReplay(cfg, u, r0);
    var r1 := r0.(enabled := u.enabled, disabled := u.disabled, noPass := u.noPass,
                  skipSanitize := u.skipSanitize, sanitize := u.sanitize || (sanitize && !u.skipSanitize));
    HashesReplay(cfg, r1, u.passwords);
    Then(cfg, r0, FlagTokens(u), r1, Prefixed("#", u.passwords), r1.(passwords := u.passwords));
  }

  lemma OthersReplay(cfg: Config, u: User, sanitize: bool)
    requires UserOk(cfg, u)
    ensures ApplyAll(cfg, Fresh(cfg).(sanitize := sanitize), FlagAndPasswordTokens(u) + KeyTokens(u) + ChannelTokens(u))
         == Done(WithoutCommands(cfg, u, sanitize))
  {
    hide UserOk, ApplyAll, FlagAndPasswordTokens, KeyTokens, ChannelTokens, PasswordsOk, PatternsOk;
    UserParts(cfg, u);
    FlagsAndPasswordsReplay(cfg, u, sanitize);
    var r0 := Fresh(cfg).(sanitize := sanitize);
    var r := WithoutCommands(cfg, u, sanitize);
    var r3 := r.(allChannels := cfg.allChannelsByDefault, channels := []);
    var r2 := r3.(allKeys := false, patterns := []);
    KeyTokensReplay(cfg, u, r2);
    ChannelTokensReplay(cfg, u, r3);
    Then(cfg, r0, FlagAndPasswordTokens(u), r2, KeyTokens(u), r3);
    Then(cfg, r0, FlagAndPasswordTokens(u) + KeyTokens(u), r3, ChannelTokens(u), r);
  }

  /**
   The rules that describe a user, applied to a user just created or just reset, are all accepted and
   restore everything, except that the flag for all commands is set if and only if all bits are.
   A user just reset has asked for payloads to be sanitized, and a description never takes that back.
   */
  lemma DescribeRestores(cfg: Config, u: User, sanitize: bool)
    requires ConfigOk(cfg) && UserOk(cfg, u)
    ensures ApplyAll(cfg, Fresh(cfg).(sanitize := sanitize), Describe(cfg, u))
         == Done(u.(allCommands := u.bits == AllBits(), sanitize := u.sanitize || (sanitize && !u.skipSanitize)))
  {
    hide ConfigOk, UserOk, ApplyAll, FlagTokens, KeyTokens, ChannelTokens, CommandTokens, Prefixed, AllBits;
    var r0, r4 := Fresh(cfg).(sanitize := sanitize), WithoutCommands(cfg, u, sanitize);
    OthersReplay(cfg, u, sanitize);
    var r := CommandsReplay(cfg, u, r4);
    Then(cfg, r0, FlagAndPasswordTokens(u) + KeyTokens(u) + ChannelTokens(u), r4, CommandTokens(cfg, u), r);
    BlankOk(cfg, sanitize);
    ApplyAllOk(cfg, r0, Describe(cfg, u));
    FlagIs(cfg, u, r4, r);
  }

  lemma BlankOk(cfg: Config, sanitize: bool)
    ensures UserOk(cfg, Fresh(cfg).(sanitize := sanitize))
  {
  }

  /** So it is for every user that rules can make of a new one, whichever of them were accepted. */
  lemma RulesThenDescription(cfg: Config, ops: seq<string>)
    requires ConfigOk(cfg)
    ensures var u := Run(cfg, Fresh(cfg), ops);
            FixBits(cfg, u, FakeUserBits(cfg, u), |cfg.table|) == u.bits &&
            ApplyAll(cfg, Fresh(cfg), Describe(cfg, u)) == Done(u.(allCommands := u.bits == AllBits()))
  {
    hide ConfigOk, UserOk, Run, ApplyAll, Describe, FixBits, FakeUserBits, AllBits;
    FreshOk(cfg);
    RunOk(cfg, Fresh(cfg), ops);
    var u := Run(cfg, Fresh(cfg), ops);
    BitmapsMatch(cfg, u);
    DescribeRestores(cfg, u, false);
  }

  lemma FlagIs(cfg: Config, u: User, r4: User, r: User)
    requires ConfigOk(cfg) && UserOk(cfg, r) && r.bits == u.bits
    requires ApplyAll(cfg, r4, CommandTokens(cfg, u)) == Done(r)
    ensures r.allCommands <==> u.bits == AllBits()
  {
    hide ConfigOk, ApplyAll, CommandTokens;
    assert r.allCommands ==> r.bits == AllBits();
    if u.bits == AllBits() {
      OnlyAll(cfg, u);
      NoCategories(cfg, u);
      BaseReplay(cfg, u, r4);
    }
  }

  // -------------------------------------------------------------------- In place

  method CountCategoryBits(cfg: Config, bits: set<nat>, category: string) returns (on: nat, off: nat)
    ensures on == Count(cfg.table, bits, category, true) && off == Count(cfg.table, bits, category, false)
  {
    on, off := 0, 0;
    for k := 0 to |cfg.table|
      invariant on == Count(cfg.table[..k], bits, category, true) && off == Count(cfg.table[..k], bits, category, false)
    {
      assert cfg.table[..k + 1][..k] == cfg.table[..k];
      if category in cfg.table[k].categories {
        if cfg.table[k].id in bits {
          on := on + 1;
        } else {
          off := off + 1;
        }
      }
    }
    assert cfg.table[..|cfg.table|] == cfg.table;
  }

  function AppliedSet(applied: seq<bool>): set<nat> { set j | 0 <= j < |applied| && applied[j] }

  const INT_MAX := 0x7FFF_FFFF

  lemma BestOfNone(cfg: Config, additive: bool, bits: set<nat>, applied: set<nat>)
    ensures Best(cfg, additive, bits, applied, 0) == None
  {
  }

  lemma BestStep(cfg: Config, additive: bool, bits: set<nat>, applied: set<nat>, j: nat)
    requires j < CATEGORY_COUNT
    ensures var b := Best(cfg, additive, bits, applied, j);
            Best(cfg, additive, bits, applied, j + 1) ==
              if Fits(cfg, additive, bits, applied, j) && (b.None? || !BestStays(cfg, additive, bits, b.value, j))
              then Some(j) else b
  {
  }

  /** The best category that has not been applied, or -1. */
  method BestCategory(cfg: Config, additive: bool, bits: set<nat>, applied: array<bool>) returns (best: int)
    requires applied.Length == CATEGORY_COUNT && |cfg.table| < INT_MAX
    ensures Best(cfg, additive, bits, AppliedSet(applied[..]), CATEGORY_COUNT) ==
            if best == -1 then None else Some(best)
    ensures best == -1 || 0 <= best < CATEGORY_COUNT
  {
    hide CategoryName, Count, Best;
    BestOfNone(cfg, additive, bits, AppliedSet(applied[..]));
    best := -1;
    var minDiff, maxSame := INT_MAX, 0;
    ghost var set0 := AppliedSet(applied[..]);
    for j := 0 to CATEGORY_COUNT
      invariant best == -1 || 0 <= best < j
      invariant Best(cfg, additive, bits, set0, j) == if best == -1 then None else Some(best)
      invariant best == -1 ==> minDiff == INT_MAX && maxSame == 0
      invariant best != -1 ==> minDiff == Diff(cfg, additive, bits, best) && maxSame == Same(cfg, additive, bits, best)
    {
      BestStep(cfg, additive, bits, set0, j);
      if applied[j] {
        assert j in set0;
        continue;
      }
      assert j !in set0;
      var on, off := CountCategoryBits(cfg, bits, CategoryName(j));
      var diff, same := if additive then off else on, if additive then on else off;
      assert diff == Diff(cfg, additive, bits, j) && same == Same(cfg, additive, bits, j);
      if same > diff && (diff < minDiff || (diff == minDiff && same > maxSame)) {
        best, minDiff, maxSame := j, diff, same;
      }
    }
  }

  function CategoryToken(additive: bool, j: nat): string
    requires j < CATEGORY_COUNT
  {
    (if additive then "+@" else "-@") + CategoryName(j)
  }

  lemma AppliedMore(applied: seq<bool>, j: nat)
    requires j < |applied|
    ensures AppliedSet(applied[j := true]) == AppliedSet(applied) + {j}
  {
  }

  lemma NoneApplied(applied: seq<bool>)
    requires forall i | 0 <= i < |applied| :: !applied[i]
    ensures AppliedSet(applied) == {}
  {
  }

  lemma ToggledHere(cfg: Config, u: User, j: nat, add: bool)
    requires j < CATEGORY_COUNT
    ensures SetBits(u, IdsIn(cfg.table, CategoryName(j)), add).bits == Toggled(cfg, u.bits, add, j)
  {
  }

  /** What holds between two rounds: `done` are the categories chosen so far. */
  ghost predicate SoFar(cfg: Config, u: User, done: seq<nat>, applied: set<nat>, temp: set<nat>, fake: set<nat>,
                        text: string)
  {
    var additive := Additive(u);
    (forall i | 0 <= i < |done| :: done[i] < CATEGORY_COUNT) &&
    Categories(cfg, u) == done + Greedy(cfg, additive, temp, applied) &&
    fake == FakeBits(cfg, BaseBits(u), additive, done) &&
    text == Terminated(CategoryTokens(additive, done), ' ')
  }

  lemma SoFarNothing(cfg: Config, u: User)
    ensures SoFar(cfg, u, [], {}, u.bits, BaseBits(u), "")
  {
  }

  lemma GreedyNext(cfg: Config, additive: bool, temp: set<nat>, applied: set<nat>, j: nat)
    requires Best(cfg, additive, temp, applied, CATEGORY_COUNT) == Some(j)
    ensures j < CATEGORY_COUNT && j !in applied
    ensures Greedy(cfg, additive, temp, applied)
         == [j] + Greedy(cfg, additive, Toggled(cfg, temp, !additive, j), applied + {j})
  {
    BestIsBest(cfg, additive, temp, applied, CATEGORY_COUNT);
    hide Best, Toggled;
  }

  lemma SoFarMore(cfg: Config, u: User, done: seq<nat>, applied: set<nat>, temp: set<nat>, fake: set<nat>,
                  text: string, j: nat)
    requires SoFar(cfg, u, done, applied, temp, fake, text)
    requires Best(cfg, Additive(u), temp, applied, CATEGORY_COUNT) == Some(j) && j < CATEGORY_COUNT
    ensures SoFar(cfg, u, done + [j], applied + {j}, Toggled(cfg, temp, Subtractive(u), j),
                  Toggled(cfg, fake, Additive(u), j), text + CategoryToken(Additive(u), j) + " ")
  {
    hide Best, Greedy, Toggled, CategoryTokens, CategoryName, BaseBits, Categories;
    var additive := Additive(u);
    GreedyNext(cfg, additive, temp, applied, j);
    var next := done + [j];
    assert next[..|next| - 1] == done;
    CategoryTokensLast(additive, next);
    TerminatedLast(CategoryTokens(additive, done), CategoryToken(additive, j));
    assert done + Greedy(cfg, additive, temp, applied)
        == next + Greedy(cfg, additive, Toggled(cfg, temp, !additive, j), applied + {j});
  }

  lemma SoFarAll(cfg: Config, u: User, done: seq<nat>, applied: set<nat>, temp: set<nat>, fake: set<nat>, text: string)
    requires SoFar(cfg, u, done, applied, temp, fake, text)
    requires Best(cfg, Additive(u), temp, applied, CATEGORY_COUNT).None?
    ensures fake == FakeUserBits(cfg, u) && text == Terminated(CategoryTokens(Additive(u), Categories(cfg, u)), ' ')
  {
    NoBestNoMore(cfg, Additive(u), temp, applied);
    hide Best, Greedy, CategoryTokens, BaseBits, Categories;
    assert done + [] == done;
  }

  /** Applies a category to one stand-in and its inverse to the other. */
  method ApplyCategory(cfg: Config, additive: bool, j: nat, fake: UserRecord, temp: UserRecord)
    requires ConfigOk(cfg) && j < CATEGORY_COUNT && fake != temp
    modifies fake, temp
    ensures fake.bits == Toggled(cfg, old(fake.bits), additive, j)
    ensures temp.bits == Toggled(cfg, old(temp.bits), !additive, j)
  {
    assert forall i | 0 <= i < |cfg.table| :: cfg.table[i].id < BITS;
    hide ConfigOk, SetBits, IdsIn, CategoryName, Toggled;
    ToggledHere(cfg, fake.Value(), j, additive);
    ToggledHere(cfg, temp.Value(), j, !additive);
    fake.SetCategory(cfg, CategoryName(j), additive);
    temp.SetCategory(cfg, CategoryName(j), !additive);
  }

  /** One round: finds the best category, if any, and applies it. */
  method NextCategory(cfg: Config, additive: bool, fake: UserRecord, temp: UserRecord, applied: array<bool>)
    returns (best: int)
    requires ConfigOk(cfg) && fake != temp && applied.Length == CATEGORY_COUNT
    modifies fake, temp, applied
    ensures Best(cfg, additive, old(temp.bits), old(AppliedSet(applied[..])), CATEGORY_COUNT)
         == if best == -1 then None else Some(best)
    ensures best == -1 ==> temp.bits == old(temp.bits) && fake.bits == old(fake.bits) && applied[..] == old(applied[..])
    ensures best != -1 ==>
              0 <= best < CATEGORY_COUNT && AppliedSet(applied[..]) == old(AppliedSet(applied[..])) + {best}
    ensures best != -1 ==> fake.bits == Toggled(cfg, old(fake.bits), additive, best)
    ensures best != -1 ==> temp.bits == Toggled(cfg, old(temp.bits), !additive, best)
  {
    assert |cfg.table| < INT_MAX;
    hide ConfigOk, Best, Toggled, AppliedSet;
    best := BestCategory(cfg, additive, temp.bits, applied);
    if best != -1 {
      AppliedMore(applied[..], best);
      applied[best] := true;
      ApplyCategory(cfg, additive, best, fake, temp);
    }
  }

  /** Chooses the categories; `fake` then has the bits that they describe. */
  method DescribeCategories(cfg: Config, u: User, fake: UserRecord) returns (text: string)
    requires ConfigOk(cfg) && fake.bits == BaseBits(u)
    modifies fake
    ensures text == Terminated(CategoryTokens(Additive(u), Categories(cfg, u)), ' ')
    ensures fake.bits == FakeUserBits(cfg, u)
  {
    hide ConfigOk, Best, Toggled, AppliedSet, SoFar, CategoryTokens, Categories, BaseBits, CategoryToken, Fresh;
    text := "";
    var applied := new bool[CATEGORY_COUNT](j => false);
    NoneApplied(applied[..]);
    var temp := new UserRecord(cfg);
    temp.bits := u.bits;
    ghost var done: seq<nat> := [];
    SoFarNothing(cfg, u);
    while true
      invariant fresh(temp) && fresh(applied) && temp != fake
      invariant SoFar(cfg, u, done, AppliedSet(applied[..]), temp.bits, fake.bits, text)
      decreases FirstBits(CATEGORY_COUNT) - AppliedSet(applied[..])
    {
      ghost var before, t, f := AppliedSet(applied[..]), temp.bits, fake.bits;
      var best := NextCategory(cfg, Additive(u), fake, temp, applied);
      if best == -1 {
        SoFarAll(cfg, u, done, before, t, f, text);
        break;
      }
      SoFarMore(cfg, u, done, before, t, f, text, best);
      GreedyNext(cfg, Additive(u), t, before, best);
      text := text + CategoryToken(Additive(u), best) + " ";
      done := done + [best];
    }
  }

  lemma NoBestNoMore(cfg: Config, additive: bool, temp: set<nat>, applied: set<nat>)
    requires Best(cfg, additive, temp, applied, CATEGORY_COUNT).None?
    ensures Greedy(cfg, additive, temp, applied) == []
  {
  }

  lemma TerminatedLast(words: seq<string>, w: string)
    ensures Terminated(words + [w], ' ') == Terminated(words, ' ') + w + " "
  {
  }

  method AppendAll(prefix: string, list: seq<string>, text0: string) returns (text: string)
    ensures text == text0 + Terminated(Prefixed(prefix, list), ' ')
  {
    text := text0;
    for j := 0 to |list|
      invariant text == text0 + Terminated(Prefixed(prefix, list[..j]), ' ')
    {
      PrefixedLast(prefix, list[..j + 1]);
      assert list[..j + 1][..j] == list[..j];
      TerminatedLast(Prefixed(prefix, list[..j]), prefix + list[j]);
      hide Terminated, Prefixed;
      text := text + (prefix + list[j] + " ");
    }
    assert list[..|list|] == list;
  }

  /** The rules for one command and its subcommands. */
  method DescribeCommand(u: User, cmd: Command, fake: UserRecord) returns (text: string)
    requires cmd.id < BITS
    modifies fake
    ensures text == Terminated(FixOne(u, old(fake.bits), cmd), ' ')
    ensures fake.bits == Fixed(u, old(fake.bits), cmd)
  {
    hide Prefixed;
    text := "";
    ghost var first: seq<string> := [];
    if (cmd.id in u.bits) != (cmd.id in fake.bits) {
      var token := (if cmd.id in u.bits then "+" else "-") + cmd.name;
      text := token + " ";
      first := [token];
      TerminatedOne(token, ' ');
      fake.SetCommandBit(cmd.id, cmd.id in u.bits);
    }
    assert fake.bits == Fixed(u, old(fake.bits), cmd);
    assert text == Terminated(first, ' ');
    hide Fixed;
    if cmd.id !in u.bits {
      text := AppendAll("+" + cmd.name + "|", SubsOf(u, cmd.id), text);
      TerminatedConcat(first, SubTokens(cmd.name, SubsOf(u, cmd.id)), ' ');
    } else {
      assert FixOne(u, old(fake.bits), cmd) == first;
    }
  }

  method DescribeCommands(cfg: Config, u: User, fake: UserRecord) returns (text: string)
    requires ConfigOk(cfg)
    modifies fake
    ensures text == Terminated(FixTokens(cfg, u, old(fake.bits), |cfg.table|), ' ')
    ensures fake.bits == FixBits(cfg, u, old(fake.bits), |cfg.table|)
  {
    hide ConfigOk, FixOne, Fixed, Terminated, FixTokens, FixBits;
    text := "";
    NothingTerminated();
    NothingFixed(cfg, u, fake.bits);
    for k := 0 to |cfg.table|
      invariant text == Terminated(FixTokens(cfg, u, old(fake.bits), k), ' ')
      invariant fake.bits == FixBits(cfg, u, old(fake.bits), k)
    {
      FixStep(cfg, u, old(fake.bits), k);
      TerminatedConcat(FixTokens(cfg, u, old(fake.bits), k), FixOne(u, fake.bits, cfg.table[k]), ' ');
      var more := DescribeCommand(u, cfg.table[k], fake);
      text := text + more;
    }
  }

  lemma NothingFixed(cfg: Config, u: User, fake: set<nat>)
    ensures FixTokens(cfg, u, fake, 0) == [] && FixBits(cfg, u, fake, 0) == fake
  {
  }

  lemma FixStep(cfg: Config, u: User, fake: set<nat>, k: nat)
    requires ConfigOk(cfg) && k < |cfg.table|
    ensures cfg.table[k].id < BITS
    ensures FixTokens(cfg, u, fake, k + 1) ==
            FixTokens(cfg, u, fake, k) + FixOne(u, FixBits(cfg, u, fake, k), cfg.table[k])
    ensures FixBits(cfg, u, fake, k + 1) == Fixed(u, FixBits(cfg, u, fake, k), cfg.table[k])
  {
    hide FixOne, Fixed;
  }

  lemma NothingTerminated()
    ensures Terminated([], ' ') == ""
  {
  }

  /** Prints the command rules.  The check at the end never fails. */
  method DescribeUserCommandRules(cfg: Config, u: User) returns (rules: string)
    requires ConfigOk(cfg) && UserOk(cfg, u)
    ensures rules == Join(CommandTokens(cfg, u), ' ')
  {
    hide ConfigOk, UserOk, CategoryTokens, Categories, FixTokens, FixBits, FakeUserBits, Join, Fresh;
    var fake := new UserRecord(cfg);
    var base: string;
    if RESERVED in u.bits {
      base := "+@all";
      fake.SetWord(AllCommands);
    } else {
      base := "-@all";
      fake.SetWord(NoCommands);
    }
    assert fake.bits == BaseBits(u);
    hide BaseBits, ApplyWord;
    var categories := DescribeCategories(cfg, u, fake);
    var commands := DescribeCommands(cfg, u, fake);
    rules := base + " " + categories + commands;
    ghost var a := [base];
    ghost var b := CategoryTokens(Additive(u), Categories(cfg, u));
    ghost var c := FixTokens(cfg, u, FakeUserBits(cfg, u), |cfg.table|);
    assert rules == Terminated(a + b + c, ' ') by {
      TerminatedOne(base, ' ');
      TerminatedConcat(a, b, ' ');
      TerminatedConcat(a + b, c, ' ');
    }
    assert a + b + c == CommandTokens(cfg, u);
    TerminatedIsJoin(CommandTokens(cfg, u), ' ');
    rules := rules[..|rules| - 1];
    BitmapsMatch(cfg, u);
    assert fake.bits == u.bits;
  }

  method AppendIf(flag: bool, word: string, text0: string) returns (text: string)
    ensures text == text0 + Terminated(If(flag, word), ' ')
  {
    NothingTerminated();
    TerminatedOne(word, ' ');
    hide Terminated;
    text := text0;
    if flag {
      text := text + (word + " ");
    }
  }

  method DescribeFlags(u: User) returns (text: string)
    ensures text == Terminated(FlagTokens(u), ' ')
  {
    hide Terminated, If;
    NothingTerminated();
    text := AppendIf(u.enabled, "on", "");
    text := AppendIf(u.disabled, "off", text);
    TerminatedConcat(If(u.enabled, "on"), If(u.disabled, "off"), ' ');
    ghost var a := If(u.enabled, "on") + If(u.disabled, "off");
    text := AppendIf(u.noPass, "nopass", text);
    TerminatedConcat(a, If(u.noPass, "nopass"), ' ');
    ghost var b := a + If(u.noPass, "nopass");
    text := AppendIf(u.skipSanitize, "skip-sanitize-payload", text);
    TerminatedConcat(b, If(u.skipSanitize, "skip-sanitize-payload"), ' ');
    ghost var c := b + If(u.skipSanitize, "skip-sanitize-payload");
    text := AppendIf(u.sanitize, "sanitize-payload", text);
    TerminatedConcat(c, If(u.sanitize, "sanitize-payload"), ' ');
  }

  method DescribePatterns(u: User, text0: string) returns (text: string)
    ensures text == text0 + Terminated(KeyTokens(u) + ChannelTokens(u), ' ')
  {
    hide Terminated, Prefixed;
    TerminatedOne("~*", ' ');
    TerminatedOne("&*", ' ');
    TerminatedOne("resetchannels", ' ');
    TerminatedConcat(KeyTokens(u), ChannelTokens(u), ' ');
    TerminatedConcat(["resetchannels"], Prefixed("&", u.channels), ' ');
    if u.allKeys {
      text := text0 + "~* ";
    } else {
      text := AppendAll("~", u.patterns, text0);
    }
    if u.allChannels {
      text := text + "&* ";
    } else {
      text := text + "resetchannels ";
      text := AppendAll("&", u.channels, text);
    }
  }

  /** Prints all of a user. */
  method DescribeUser(cfg: Config, u: User) returns (text: string)
    requires ConfigOk(cfg) && UserOk(cfg, u)
    ensures text == Join(Describe(cfg, u), ' ')
  {
    hide ConfigOk, UserOk, Terminated, Join, FlagTokens, Prefixed, KeyTokens, ChannelTokens, CommandTokens;
    text := DescribeFlags(u);
    text := AppendAll("#", u.passwords, text);
    text := DescribePatterns(u, text);
    var rules := DescribeUserCommandRules(cfg, u);
    ghost var a, b, c := FlagTokens(u), Prefixed("#", u.passwords), KeyTokens(u) + ChannelTokens(u);
    ghost var d := CommandTokens(cfg, u);
    assert text == Terminated(a + b + c, ' ') by {
      TerminatedConcat(a, b, ' ');
      TerminatedConcat(a + b, c, ' ');
    }
    SomeCommandToken(cfg, u);
    JoinConcat(a + b + c, d);
    assert a + b + c + d == Describe(cfg, u);
    text := text + rules;
  }

  lemma SomeCommandToken(cfg: Config, u: User)
    ensures CommandTokens(cfg, u) != []
  {
  }

  lemma JoinConcat(a: seq<string>, b: seq<string>)
    requires b != []
    ensures Join(a + b, ' ') == Terminated(a, ' ') + Join(b, ' ')
  {
    TerminatedIsJoin(a + b, ' ');
    TerminatedIsJoin(b, ' ');
    TerminatedConcat(a, b, ' ');
    hide Terminated, Join;
    var x, y := Terminated(a, ' ') + Join(b, ' '), Join(a + b, ' ');
    assert x + " " == y + " ";
    assert x == (x + " ")[..|x|] && y == (y + " ")[..|y|];
  }
}
