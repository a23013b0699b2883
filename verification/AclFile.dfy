/**
 The file of users (acl.c): loading it, all or nothing, and saving it.

 Each line is first tried on a stand-in user.  Only if all lines so far went well are the rules applied
 to the user that the line names, in a new table that replaces the old one at the end.
 */
module AclFile {

  import opened Options
  import opened AclUser
  import opened AclText
  import opened AclDescribe

  // ------------------------------------------------------------------- One line

  const LINE_ENDS: set<char> := {'\t', '\r', '\n'}
  const BLANKS: set<char> := {' ', '\t', '\r', '\n'}

  datatype Line = Blank | Bad | UserLine(name: string, rules: seq<string>)

  function TrimAll(words: seq<string>): seq<string> {
    seq(|words|, i requires 0 <= i < |words| => Trim(words[i], LINE_ENDS))
  }

  function ParseLine(line: string): Line {
    var t := Trim(line, BLANKS);
    if t == [] then Blank
    else
      var words := Split(t, ' ');
      if words[0] != "user" || |words| < 2 then Bad
      else if HasSpaces(words[1]) then Bad
      else UserLine(words[1], TrimAll(words[2..]))
  }

  type Table = map<string, User>

  /** The user that a line's rules are applied to: a new one, or the one of that name, reset. */
  function Start(cfg: Config, table: Table, name: string): User {
    if name in table then ResetUser(cfg, table[name]) else Fresh(cfg)
  }

  /** What the line makes of the table; none if it is in error. */
  function ApplyLine(cfg: Config, table: Table, line: string): Option<Table> {
    match ParseLine(line)
    case Blank => Some(table)
    case Bad => None
    case UserLine(name, rules) =>
      var r := ApplyAll(cfg, Start(cfg, table, name), rules);
      if r.Done? then Some(table[name := r.user]) else None
  }

  function ApplyLines(cfg: Config, table: Table, lines: seq<string>): Option<Table>
    decreases |lines|
  {
    if lines == [] then Some(table)
    else
      var r := ApplyLine(cfg, table, lines[0]);
      if r.None? then None else ApplyLines(cfg, r.value, lines[1..])
  }

  /** The default user as it is before any line. */
  function InitialDefault(cfg: Config): User {
    Fresh(cfg).(bits := AllBits(), allCommands := true, allKeys := true, allChannels := true,
                enabled := true, disabled := false, noPass := true)
  }

  function Loaded(cfg: Config, lines: seq<string>): Option<Table> {
    ApplyLines(cfg, map["default" := InitialDefault(cfg)], lines)
  }

  // ---------------------------------------------------------------- The stand-in

  /** Users that differ at most in whether payloads are sanitized. */
  predicate Alike(u: User, v: User) {
    v == u.(sanitize := v.sanitize, skipSanitize := v.skipSanitize)
  }

  predicate SameResult(r: Result, q: Result) {
    if r.Done? then q.Done? && Alike(r.user, q.user) else r == q
  }

  lemma SetBitsAlike(u: User, v: User, ids: set<nat>, value: bool)
    requires Alike(u, v)
    ensures Alike(SetBits(u, ids, value), SetBits(v, ids, value))
  {
  }

  lemma AddSubAlike(u: User, v: User, id: nat, sub: string)
    requires Alike(u, v)
    ensures Alike(AddSub(u, id, sub), AddSub(v, id, sub))
  {
  }

  lemma CommandAlike(cfg: Config, u: User, v: User, rule: Rule)
    requires Alike(u, v) && IsCommandRule(rule)
    ensures SameResult(ApplyCommand(cfg, u, rule), ApplyCommand(cfg, v, rule))
  {
    hide Lookup, IdsIn, IsCategory, Lower, SetBits, AddSub;
    match rule
    case Allow(name) =>
      if Lookup(cfg, name).Some? { SetBitsAlike(u, v, {Lookup(cfg, name).value.id}, true); }
    case Deny(name) =>
      if Lookup(cfg, name).Some? { SetBitsAlike(u, v, {Lookup(cfg, name).value.id}, false); }
    case AllowSub(name, sub) =>
      if Lookup(cfg, name).Some? { AddSubAlike(u, v, Lookup(cfg, name).value.id, sub); }
    case Category(allow, name) => SetBitsAlike(u, v, IdsIn(cfg.table, Lower(name)), allow);
  }

  lemma PasswordAlike(cfg: Config, u: User, v: User, rule: Rule)
    requires Alike(u, v) && IsListRule(rule) && !rule.KeyPattern? && !rule.ChannelPattern?
    ensures SameResult(ApplyList(cfg, u, rule), ApplyList(cfg, v, rule))
  {
    hide IsHash, HasSpaces, Add, Remove;
  }

  lemma PatternAlike(cfg: Config, u: User, v: User, rule: Rule)
    requires Alike(u, v) && (rule.KeyPattern? || rule.ChannelPattern?)
    ensures SameResult(ApplyList(cfg, u, rule), ApplyList(cfg, v, rule))
  {
    hide IsHash, HasSpaces, Add, Remove;
  }

  lemma ListAlike(cfg: Config, u: User, v: User, rule: Rule)
    requires Alike(u, v) && IsListRule(rule)
    ensures SameResult(ApplyList(cfg, u, rule), ApplyList(cfg, v, rule))
  {
    hide ApplyList, Alike;
    if rule.KeyPattern? || rule.ChannelPattern? {
      PatternAlike(cfg, u, v, rule);
    } else {
      PasswordAlike(cfg, u, v, rule);
    }
  }

  lemma FlagAlike(u: User, v: User, rule: Rule)
    requires Alike(u, v) && IsFlagRule(rule)
    ensures Alike(ApplyFlag(u, rule), ApplyFlag(v, rule))
  {
    match rule
    case On =>
    case Off =>
    case SkipSanitize =>
    case Sanitize =>
  }

  lemma PatternsAlike(u: User, v: User, rule: Rule)
    requires Alike(u, v) && IsPatternsRule(rule)
    ensures Alike(ApplyPatterns(u, rule), ApplyPatterns(v, rule))
  {
    match rule
    case AllKeys =>
    case ResetKeys =>
    case AllChannels =>
    case ResetChannels =>
  }

  lemma CommandsAlike(u: User, v: User, rule: Rule)
    requires Alike(u, v) && IsWordRule(rule) && !IsFlagRule(rule) && !IsPatternsRule(rule)
    ensures Alike(ApplyWord(u, rule), ApplyWord(v, rule))
  {
    hide AllBits, ApplyFlag, ApplyPatterns;
    match rule
    case AllCommands =>
    case NoCommands =>
    case NoPass =>
    case ResetPass =>
  }

  lemma WordAlike(u: User, v: User, rule: Rule)
    requires Alike(u, v) && IsWordRule(rule)
    ensures Alike(ApplyWord(u, rule), ApplyWord(v, rule))
  {
    hide AllBits, ApplyFlag, ApplyPatterns, Alike;
    if IsFlagRule(rule) {
      FlagAlike(u, v, rule);
    } else if IsPatternsRule(rule) {
      PatternsAlike(u, v, rule);
    } else {
      CommandsAlike(u, v, rule);
    }
  }

  /** Alike users accept the same rules and stay alike. */
  lemma RuleAlike(cfg: Config, u: User, v: User, rule: Rule)
    requires Alike(u, v)
    ensures SameResult(Apply(cfg, u, rule), Apply(cfg, v, rule))
  {
    if IsWordRule(rule) {
      hide ApplyWord;
      WordAlike(u, v, rule);
    } else if IsListRule(rule) {
      hide ApplyList;
      ListAlike(cfg, u, v, rule);
    } else if IsCommandRule(rule) {
      hide ApplyCommand;
      CommandAlike(cfg, u, v, rule);
    }
  }

  lemma {:induction false} RulesAlike(cfg: Config, u: User, v: User, ops: seq<string>)
    requires Alike(u, v)
    ensures SameResult(ApplyAll(cfg, u, ops), ApplyAll(cfg, v, ops))
    decreases |ops|
  {
    hide Apply, Parse, Alike;
    if ops != [] {
      RuleAlike(cfg, u, v, Parse(ops[0]));
      if Apply(cfg, u, Parse(ops[0])).Done? {
        RulesAlike(cfg, Apply(cfg, u, Parse(ops[0])).user, Apply(cfg, v, Parse(ops[0])).user, ops[1..]);
      }
    }
  }

  /** A reset leaves nothing of what the user was before. */
  lemma ResetIsBlank(cfg: Config, u: User)
    ensures ResetUser(cfg, u) == Fresh(cfg).(sanitize := true)
  {
  }

  /** What the stand-in accepts after a reset, the user named in the line accepts too, and conversely. */
  lemma StandInTells(cfg: Config, standIn: User, table: Table, name: string, rules: seq<string>)
    ensures ApplyAll(cfg, ResetUser(cfg, standIn), rules).Done? <==> ApplyAll(cfg, Start(cfg, table, name), rules).Done?
  {
    hide ApplyAll, ResetUser;
    ResetIsBlank(cfg, standIn);
    if name in table { ResetIsBlank(cfg, table[name]); }
    RulesAlike(cfg, ResetUser(cfg, standIn), Start(cfg, table, name), rules);
  }

  /** A line is accepted if it is blank, or names a user and a new user accepts all its rules. */
  predicate LineOk(cfg: Config, line: string) {
    match ParseLine(line)
    case Blank => true
    case Bad => false
    case UserLine(name, rules) => ApplyAll(cfg, Fresh(cfg), rules).Done?
  }

  lemma LineOkTells(cfg: Config, table: Table, line: string)
    ensures ApplyLine(cfg, table, line).Some? <==> LineOk(cfg, line)
  {
    hide ParseLine, ApplyAll;
    match ParseLine(line)
    case Blank =>
    case Bad =>
    case UserLine(name, rules) =>
      StandInTells(cfg, Fresh(cfg), map[], name, rules);
      StandInTells(cfg, Fresh(cfg), table, name, rules);
  }

  /** A file is taken exactly if each of its lines, looked at alone, is accepted. */
  lemma {:induction false} LoadsExactly(cfg: Config, table: Table, lines: seq<string>)
    ensures ApplyLines(cfg, table, lines).Some? <==> forall i | 0 <= i < |lines| :: LineOk(cfg, lines[i])
    decreases |lines|
  {
    hide ApplyLine, LineOk;
    if lines != [] {
      LineOkTells(cfg, table, lines[0]);
      if ApplyLine(cfg, table, lines[0]).Some? {
        LoadsExactly(cfg, ApplyLine(cfg, table, lines[0]).value, lines[1..]);
        assert forall i | 1 <= i < |lines| :: lines[i] == lines[1..][i - 1];
        assert forall i | 0 <= i < |lines| - 1 :: lines[1..][i] == lines[i + 1];
      }
    }
  }

  predicate HasUser(line: string, n: string) { ParseLine(line).UserLine? && ParseLine(line).name == n }

  lemma UsersOfLine(cfg: Config, table: Table, line: string)
    requires ApplyLine(cfg, table, line).Some?
    ensures forall n :: n in ApplyLine(cfg, table, line).value <==> n in table || HasUser(line, n)
  {
    hide ParseLine, ApplyAll;
  }

  /** Afterwards the users are those of the table and those with a line. */
  lemma {:induction false} UsersExactly(cfg: Config, table: Table, lines: seq<string>)
    requires ApplyLines(cfg, table, lines).Some?
    ensures forall n :: n in ApplyLines(cfg, table, lines).value <==>
                        n in table || exists i :: 0 <= i < |lines| && HasUser(lines[i], n)
    decreases |lines|
  {
    hide ParseLine, ApplyAll, HasUser;
    if lines != [] {
      var t1 := ApplyLine(cfg, table, lines[0]).value;
      UsersOfLine(cfg, table, lines[0]);
      UsersExactly(cfg, t1, lines[1..]);
      hide ApplyLine;
      forall n ensures n in ApplyLines(cfg, table, lines).value <==>
                       n in table || exists i :: 0 <= i < |lines| && HasUser(lines[i], n)
      {
        if i :| 0 <= i < |lines| - 1 && HasUser(lines[1..][i], n) { assert HasUser(lines[i + 1], n); }
        if i :| 1 <= i < |lines| && HasUser(lines[i], n) { assert HasUser(lines[1..][i - 1], n); }
      }
    }
  }

  // ------------------------------------------------------- Words that a line gives back

  /** The end of a word that is not torn apart, and not trimmed behind. */
  predicate Kept(s: string) {
    ' ' !in s && '\n' !in s && (s == [] || s[|s| - 1] !in BLANKS)
  }

  /** A word without null characters and, if `whole`, one that a line gives back. */
  predicate Solid(s: string, whole: bool) {
    s != [] && NUL !in s && (whole ==> s[0] !in BLANKS && Kept(s))
  }

  predicate AllSolid(words: seq<string>, whole: bool) { forall i | 0 <= i < |words| :: Solid(words[i], whole) }

  /** No subcommand contains a space or a line end, or ends in a tab or a carriage return. */
  predicate PlainSubs(u: User) {
    forall id, i | id in u.subs && 0 <= i < |u.subs[id]| :: Kept(u.subs[id][i])
  }

  lemma SolidConcat(a: string, b: string, whole: bool)
    requires Solid(a, whole) && NUL !in b && (whole ==> Kept(b))
    ensures Solid(a + b, whole)
  {
    if whole && b != [] { assert (a + b)[|a + b| - 1] == b[|b| - 1]; }
  }

  lemma AllSolidConcat(a: seq<string>, b: seq<string>, whole: bool)
    requires AllSolid(a, whole) && AllSolid(b, whole)
    ensures AllSolid(a + b, whole)
  {
    hide Solid;
  }

  lemma PrefixedSolid(p: string, s: seq<string>, whole: bool)
    requires Solid(p, whole) && forall i | 0 <= i < |s| :: NUL !in s[i] && (whole ==> Kept(s[i]))
    ensures AllSolid(Prefixed(p, s), whole)
  {
    hide Solid, Kept;
    forall i | 0 <= i < |s| ensures Solid(Prefixed(p, s)[i], whole) { SolidConcat(p, s[i], whole); }
  }

  lemma OneCharSolid(whole: bool)
    ensures Solid("#", whole) && Solid("~", whole) && Solid("&", whole) && Solid("+", whole) && Solid("-", whole)
    ensures Solid("+@", whole) && Solid("-@", whole) && Solid("|", whole)
  {
  }

  lemma NoSpacesKept(s: string)
    requires !HasSpaces(s)
    ensures Kept(s) && NUL !in s
  {
  }

  lemma HashHasNoSpaces(h: string)
    requires IsHash(h)
    ensures !HasSpaces(h)
  {
  }

  lemma WordsSolid(whole: bool)
    ensures Solid("on", whole) && Solid("off", whole) && Solid("nopass", whole)
    ensures Solid("~*", whole) && Solid("&*", whole) && Solid("+@all", whole) && Solid("-@all", whole)
  {
  }

  lemma SanitizeSolid(whole: bool)
    ensures Solid("skip-sanitize-payload", whole) && Solid("sanitize-payload", whole)
  {
    PlainWordSolid("skip-sanitize-payload", whole);
    PlainWordSolid("sanitize-payload", whole);
  }

  lemma ResetChannelsSolid(whole: bool)
    ensures Solid("resetchannels", whole)
  {
    PlainWordSolid("resetchannels", whole);
  }

  lemma PlainWordSolid(s: string, whole: bool)
    requires s != [] && forall i | 0 <= i < |s| :: 'a' <= s[i] <= 'z' || s[i] == '-'
    ensures Solid(s, whole)
  {
  }

  lemma FlagsSolid(u: User, whole: bool)
    ensures AllSolid(FlagTokens(u), whole)
  {
    hide Solid;
    WordsSolid(whole);
    SanitizeSolid(whole);
  }

  lemma ListsSolid(cfg: Config, u: User, whole: bool)
    requires UserOk(cfg, u)
    ensures AllSolid(Prefixed("#", u.passwords), whole)
    ensures AllSolid(KeyTokens(u), whole) && AllSolid(ChannelTokens(u), whole)
  {
    hide Solid, HasSpaces, IsHash, BitsOk, SubsOk, Prefixed, Kept;
    WordsSolid(whole);
    ResetChannelsSolid(whole);
    OneCharSolid(whole);
    forall i | 0 <= i < |u.passwords| ensures Kept(u.passwords[i]) && NUL !in u.passwords[i] {
      HashHasNoSpaces(u.passwords[i]);
      NoSpacesKept(u.passwords[i]);
    }
    forall i | 0 <= i < |u.patterns| ensures Kept(u.patterns[i]) && NUL !in u.patterns[i] {
      NoSpacesKept(u.patterns[i]);
    }
    forall i | 0 <= i < |u.channels| ensures Kept(u.channels[i]) && NUL !in u.channels[i] {
      NoSpacesKept(u.channels[i]);
    }
    PrefixedSolid("#", u.passwords, whole);
    PrefixedSolid("~", u.patterns, whole);
    PrefixedSolid("&", u.channels, whole);
    AllSolidConcat(["resetchannels"], Prefixed("&", u.channels), whole);
  }

  lemma LettersHaveNoSpaces(s: string)
    requires Letters(s)
    ensures !HasSpaces(s)
  {
  }

  lemma CategoriesSolid(additive: bool, cats: seq<nat>, whole: bool)
    requires forall i | 0 <= i < |cats| :: cats[i] < CATEGORY_COUNT
    ensures AllSolid(CategoryTokens(additive, cats), whole)
  {
    hide Solid, HasSpaces, Letters, CategoryName, Kept;
    OneCharSolid(whole);
    forall i | 0 <= i < |cats| ensures Solid(CategoryTokens(additive, cats)[i], whole) {
      CategoryLetters(cats[i]);
      LettersHaveNoSpaces(CategoryName(cats[i]));
      NoSpacesKept(CategoryName(cats[i]));
      SolidConcat(if additive then "+@" else "-@", CategoryName(cats[i]), whole);
    }
  }

  lemma NameSolid(name: string, whole: bool)
    requires NameOk(name)
    ensures Solid("+" + name, whole) && Solid("-" + name, whole) && Solid("+" + name + "|", whole)
  {
    hide Solid, Kept, HasSpaces;
    OneCharSolid(whole);
    NoSpacesKept(name);
    NoSpacesKept("|") by { assert !HasSpaces("|") by { BarHasNone(); } }
    SolidConcat("+", name, whole);
    SolidConcat("-", name, whole);
    SolidConcat("+" + name, "|", whole);
  }

  lemma BarHasNone()
    ensures !HasSpaces("|")
  {
  }

  lemma FixOneSolid(cfg: Config, u: User, fake: set<nat>, k: nat, whole: bool)
    requires ConfigOk(cfg) && k < |cfg.table| && SubsOk(cfg, u.bits, u.subs) && (whole ==> PlainSubs(u))
    ensures AllSolid(FixOne(u, fake, cfg.table[k]), whole)
  {
    var cmd := cfg.table[k];
    NameSolid(cmd.name, whole);
    hide ConfigOk, NameOk, Solid, Prefixed, Kept;
    var subs := SubsOf(u, cmd.id);
    assert forall i | 0 <= i < |subs| :: NUL !in subs[i] && (whole ==> Kept(subs[i]));
    PrefixedSolid("+" + cmd.name + "|", subs, whole);
  }

  lemma {:induction false} FixSolid(cfg: Config, u: User, fake: set<nat>, k: nat, whole: bool)
    requires ConfigOk(cfg) && k <= |cfg.table| && SubsOk(cfg, u.bits, u.subs) && (whole ==> PlainSubs(u))
    ensures AllSolid(FixTokens(cfg, u, fake, k), whole)
    decreases k
  {
    hide ConfigOk, PlainSubs, FixOne, AllSolid, SubsOk;
    if k == 0 {
      NothingSolid(whole);
    } else {
      FixSolid(cfg, u, fake, k - 1, whole);
      FixOneSolid(cfg, u, FixBits(cfg, u, fake, k - 1), k - 1, whole);
      AllSolidConcat(FixTokens(cfg, u, fake, k - 1), FixOne(u, FixBits(cfg, u, fake, k - 1), cfg.table[k - 1]), whole);
    }
  }

  lemma NothingSolid(whole: bool)
    ensures AllSolid([], whole)
  {
  }

  lemma OneSolid(w: string, whole: bool)
    requires Solid(w, whole)
    ensures AllSolid([w], whole)
  {
  }

  /** A description has no null characters, and a line gives its words back if the subcommands are plain. */
  lemma DescriptionSolid(cfg: Config, u: User, whole: bool)
    requires ConfigOk(cfg) && UserOk(cfg, u) && (whole ==> PlainSubs(u))
    ensures AllSolid(Describe(cfg, u), whole)
  {
    assert SubsOk(cfg, u.bits, u.subs);
    hide ConfigOk, UserOk, PlainSubs, AllSolid, Solid, FlagTokens, Prefixed, KeyTokens, ChannelTokens, CategoryTokens,
         FixTokens, Categories, FakeUserBits, SubsOk;
    WordsSolid(whole);
    OneSolid("+@all", whole);
    OneSolid("-@all", whole);
    FlagsSolid(u, whole);
    ListsSolid(cfg, u, whole);
    CategoriesSolid(Additive(u), Categories(cfg, u), whole);
    FixSolid(cfg, u, FakeUserBits(cfg, u), |cfg.table|, whole);
    var base := [if RESERVED in u.bits then "+@all" else "-@all"];
    var cats := CategoryTokens(Additive(u), Categories(cfg, u));
    var fix := FixTokens(cfg, u, FakeUserBits(cfg, u), |cfg.table|);
    AllSolidConcat(base, cats, whole);
    AllSolidConcat(base + cats, fix, whole);
    AllSolidConcat(FlagTokens(u), Prefixed("#", u.passwords), whole);
    var a := FlagTokens(u) + Prefixed("#", u.passwords);
    AllSolidConcat(a, KeyTokens(u), whole);
    AllSolidConcat(a + KeyTokens(u), ChannelTokens(u), whole);
    AllSolidConcat(a + KeyTokens(u) + ChannelTokens(u), CommandTokens(cfg, u), whole);
  }

  // ----------------------------------------------------------- Saving, then loading

  function SaveLine(cfg: Config, name: string, u: User): string {
    "user " + name + " " + Join(Describe(cfg, u), ' ')
  }

  /** The file: a line for each user. */
  function SaveText(cfg: Config, names: seq<string>, table: Table): string
    requires forall i | 0 <= i < |names| :: names[i] in table
  {
    Terminated(SaveLines(cfg, names, table), '\n')
  }

  lemma SolidHasNo(s: string, c: char)
    requires !HasSpaces(s) && IsSpace(c)
    ensures c !in s
  {
  }

  lemma JoinTwo(a: string, b: string, rest: seq<string>)
    requires rest != []
    ensures Join([a, b] + rest, ' ') == a + " " + b + " " + Join(rest, ' ')
  {
  }

  lemma {:induction false} JoinEnd(words: seq<string>)
    requires words != [] && forall i | 0 <= i < |words| :: words[i] != []
    ensures var t, last := Join(words, ' '), words[|words| - 1];
            t != [] && t[0] == words[0][0] && t[|t| - 1] == last[|last| - 1]
    decreases |words|
  {
    if |words| > 1 { JoinEnd(words[1..]); }
  }

  lemma LineNotTrimmed(words: seq<string>)
    requires words != [] && AllSolid(words, true)
    ensures Trim(Join(words, ' '), BLANKS) == Join(words, ' ') && Join(words, ' ') != []
  {
    JoinEnd(words);
    var t := Join(words, ' ');
    var last := words[|words| - 1];
    assert Solid(words[0], true) && Solid(last, true);
    TrimNothing(t, BLANKS);
  }

  /** The line's words: the name may be empty, so they are not all solid. */
  lemma LineSplits(name: string, rules: seq<string>)
    requires !HasSpaces(name) && AllSolid(rules, true) && rules != []
    ensures Split(Join(["user", name] + rules, ' '), ' ') == ["user", name] + rules
  {
    var words := ["user", name] + rules;
    assert FreeOf(words, ' ') by {
      forall i | 0 <= i < |words| ensures ' ' !in words[i] {
        if i == 1 { SolidHasNo(name, ' '); }
        else if i >= 2 { assert Solid(rules[i - 2], true); }
      }
    }
    SplitOfFree(words, ' ');
  }

  lemma LineTrimmed(name: string, rules: seq<string>)
    requires AllSolid(rules, true) && rules != []
    ensures var t := "user " + name + " " + Join(rules, ' '); Trim(t, BLANKS) == t && t != []
  {
    LineNotTrimmed(rules);
    var t, r := "user " + name + " " + Join(rules, ' '), Join(rules, ' ');
    JoinEnd(rules);
    assert Solid(rules[|rules| - 1], true);
    assert t[|t| - 1] == r[|r| - 1] && t[0] == 'u';
    TrimNothing(t, BLANKS);
  }

  lemma RulesNotTrimmed(rules: seq<string>)
    requires AllSolid(rules, true)
    ensures TrimAll(rules) == rules
  {
  }

  lemma LineParses(name: string, rules: seq<string>)
    requires !HasSpaces(name) && AllSolid(rules, true) && rules != []
    ensures ParseLine("user " + name + " " + Join(rules, ' ')) == UserLine(name, rules)
  {
    hide HasSpaces, AllSolid, Trim, Split, Join, TrimAll;
    LineTrimmed(name, rules);
    JoinTwo("user", name, rules);
    LineSplits(name, rules);
    RulesNotTrimmed(rules);
    assert "user" + " " == "user ";
    var words := ["user", name] + rules;
    assert words[2..] == rules;
  }

  /** A line is in error exactly if its first word is not `user`, or no name follows, or the name holds a
      character that is no part of names. */
  lemma BadExactly(words: seq<string>)
    requires words != [] && FreeOf(words, ' ')
    requires var t := Join(words, ' '); t != [] && t[0] !in BLANKS && t[|t| - 1] !in BLANKS
    ensures ParseLine(Join(words, ' ')).Bad? <==>
            words[0] != "user" || |words| == 1 || exists c :: c in words[1] && (IsSpace(c) || c == NUL)
  {
    hide Split, Join, TrimAll, IsSpace, Trim;
    TrimNothing(Join(words, ' '), BLANKS);
    SplitOfFree(words, ' ');
    if |words| > 1 {
      var w := words[1];
      if c :| c in w && (IsSpace(c) || c == NUL) {
        var i :| 0 <= i < |w| && w[i] == c;
        assert HasSpaces(w);
      }
    }
  }

  /** What loading makes of a user that was saved; the default user is reset first. */
  function Restored(u: User, isDefault: bool): User {
    u.(allCommands := u.bits == AllBits(), sanitize := u.sanitize || (isDefault && !u.skipSanitize))
  }

  lemma SavedLineLoads(cfg: Config, table: Table, name: string, u: User)
    requires ConfigOk(cfg) && UserOk(cfg, u) && PlainSubs(u) && !HasSpaces(name)
    ensures ApplyLine(cfg, table, SaveLine(cfg, name, u)) == Some(table[name := Restored(u, name in table)])
  {
    hide ConfigOk, UserOk, PlainSubs, HasSpaces, AllSolid, ParseLine, ApplyAll, Describe, AllBits;
    DescriptionSolid(cfg, u, true);
    SomeToken(cfg, u);
    LineParses(name, Describe(cfg, u));
    if name in table { ResetIsBlank(cfg, table[name]); }
    var start := Start(cfg, table, name);
    assert start == Fresh(cfg).(sanitize := name in table);
    DescribeRestores(cfg, u, name in table);
  }

  lemma SomeToken(cfg: Config, u: User)
    ensures Describe(cfg, u) != []
  {
  }

  /** The table after the lines of the given users. */
  function Reloaded(cfg: Config, start: Table, names: seq<string>, table: Table): Table
    requires forall i | 0 <= i < |names| :: names[i] in table
  {
    if names == [] then start
    else
      var t := Reloaded(cfg, start, names[..|names| - 1], table);
      var n := names[|names| - 1];
      t[n := Restored(table[n], n in t)]
  }

  lemma {:induction false} LinesConcat(cfg: Config, t: Table, a: seq<string>, b: seq<string>)
    requires ApplyLines(cfg, t, a).Some?
    ensures ApplyLines(cfg, t, a + b) == ApplyLines(cfg, ApplyLines(cfg, t, a).value, b)
    decreases |a|
  {
    hide ApplyLine;
    if a == [] {
      assert a + b == b;
    } else {
      assert (a + b)[1..] == a[1..] + b;
      LinesConcat(cfg, ApplyLine(cfg, t, a[0]).value, a[1..], b);
    }
  }

  lemma OneLine(cfg: Config, t: Table, line: string)
    ensures ApplyLines(cfg, t, [line]) == ApplyLine(cfg, t, line)
  {
    hide ApplyLine;
    assert [line][1..] == [];
  }

  function SaveLines(cfg: Config, names: seq<string>, table: Table): seq<string>
    requires forall i | 0 <= i < |names| :: names[i] in table
  {
    seq(|names|, i requires 0 <= i < |names| => SaveLine(cfg, names[i], table[names[i]]))
  }

  /** Users as rules make them, with the names that are accepted. */
  ghost predicate TableOk(cfg: Config, table: Table) {
    forall n | n in table :: UserOk(cfg, table[n]) && !HasSpaces(n)
  }

  predicate PlainTable(table: Table) { forall n | n in table :: PlainSubs(table[n]) }

  lemma {:induction false} SavedLinesLoad(cfg: Config, start: Table, names: seq<string>, table: Table)
    requires ConfigOk(cfg) && TableOk(cfg, table) && PlainTable(table)
    requires forall i | 0 <= i < |names| :: names[i] in table
    ensures ApplyLines(cfg, start, SaveLines(cfg, names, table)) == Some(Reloaded(cfg, start, names, table))
    decreases |names|
  {
    hide ConfigOk, SaveLine, ApplyLine, UserOk, PlainSubs, HasSpaces, Restored;
    if names != [] {
      var init, n := names[..|names| - 1], names[|names| - 1];
      SavedLinesLoad(cfg, start, init, table);
      var t := Reloaded(cfg, start, init, table);
      SavedLineLoads(cfg, t, n, table[n]);
      assert SaveLines(cfg, names, table) == SaveLines(cfg, init, table) + [SaveLine(cfg, n, table[n])];
      LinesConcat(cfg, start, SaveLines(cfg, init, table), [SaveLine(cfg, n, table[n])]);
      OneLine(cfg, t, SaveLine(cfg, n, table[n]));
    }
  }

  lemma {:induction false} ReloadedIs(cfg: Config, start: Table, names: seq<string>, table: Table)
    requires Distinct(names) && forall i | 0 <= i < |names| :: names[i] in table
    ensures var r := Reloaded(cfg, start, names, table);
            (forall n :: n in r <==> n in start || n in names) &&
            (forall n | n in r :: r[n] == if n in names then Restored(table[n], n in start) else start[n])
    decreases |names|
  {
    hide Restored;
    if names != [] {
      var init, n := names[..|names| - 1], names[|names| - 1];
      ReloadedIs(cfg, start, init, table);
      assert names == init + [n];
      assert n !in init;
    }
  }

  /** The text of a file splits into its lines, and an empty one at the end. */
  lemma FileLines(lines: seq<string>)
    requires FreeOf(lines, '\n')
    ensures Split(Terminated(lines, '\n'), '\n') == lines + [""]
  {
    var all := lines + [""];
    TerminatedIsJoin(all, '\n');
    assert all[..|all| - 1] == lines;
    assert Join(all, '\n') == Terminated(lines, '\n') by {
      var x, y := Join(all, '\n'), Terminated(lines, '\n');
      assert x + ['\n'] == y + "" + ['\n'];
      assert x == (x + ['\n'])[..|x|] && y == (y + ['\n'])[..|y|];
    }
    hide Terminated, Join;
    SplitOfFree(all, '\n');
  }

  lemma {:induction false} JoinFree(words: seq<string>, sep: char, c: char)
    requires FreeOf(words, c) && sep != c
    ensures c !in Join(words, sep)
    decreases |words|
  {
    if |words| > 1 { JoinFree(words[1..], sep, c); }
  }

  lemma SaveLineFree(cfg: Config, name: string, u: User)
    requires ConfigOk(cfg) && UserOk(cfg, u) && PlainSubs(u) && !HasSpaces(name)
    ensures '\n' !in SaveLine(cfg, name, u)
  {
    hide ConfigOk, UserOk, PlainSubs, Describe, Join;
    DescriptionSolid(cfg, u, true);
    var d := Describe(cfg, u);
    forall i | 0 <= i < |d| ensures '\n' !in d[i] { assert Solid(d[i], true); }
    JoinFree(d, ' ', '\n');
    SolidHasNo(name, '\n');
  }

  lemma EmptyLine(cfg: Config, t: Table)
    ensures ApplyLine(cfg, t, "") == Some(t)
  {
  }

  lemma PlainFileLoads(cfg: Config, names: seq<string>, table: Table)
    requires ConfigOk(cfg) && TableOk(cfg, table) && PlainTable(table) && "default" in table
    requires Distinct(names) && forall n :: n in names <==> n in table
    ensures (forall i | 0 <= i < |names| :: names[i] in table) &&
            Loaded(cfg, Split(SaveText(cfg, names, table), '\n')) == Some(RestoredTable(table))
  {
    hide ConfigOk, UserOk, PlainSubs, HasSpaces, SaveLine, ApplyLine, Restored, InitialDefault, Split, Terminated,
         ApplyLines;
    assert forall i | 0 <= i < |names| :: names[i] in names;
    var start: Table := map["default" := InitialDefault(cfg)];
    var lines := SaveLines(cfg, names, table);
    forall i | 0 <= i < |lines| ensures '\n' !in lines[i] {
      SaveLineFree(cfg, names[i], table[names[i]]);
    }
    FileLines(lines);
    SavedLinesLoad(cfg, start, names, table);
    ReloadedIs(cfg, start, names, table);
    var r := Reloaded(cfg, start, names, table);
    LinesConcat(cfg, start, lines, [""]);
    OneLine(cfg, r, "");
    EmptyLine(cfg, r);
    assert r == RestoredTable(table);
  }

  /** What loading makes of saved users; the default user is there before its line. */
  function RestoredTable(table: Table): Table { map n | n in table :: Restored(table[n], n == "default") }

  // ------------------------------------------------------ What can come out of a file

  lemma {:induction false} SplitChars(s: string, sep: char, c: char)
    requires c !in s
    ensures FreeOf(Split(s, sep), c)
    decreases |s|
  {
    if s != [] { SplitChars(s[1..], sep, c); }
  }

  lemma {:induction false} TrimLeftFacts(s: string, cut: set<char>)
    ensures forall c :: c !in s ==> c !in TrimLeft(s, cut)
    decreases |s|
  {
    if s != [] && s[0] in cut { TrimLeftFacts(s[1..], cut); }
  }

  lemma {:induction false} TrimRightFacts(s: string, cut: set<char>)
    ensures var t := TrimRight(s, cut); (forall c :: c !in s ==> c !in t) && (t == [] || t[|t| - 1] !in cut)
    decreases |s|
  {
    if s != [] && s[|s| - 1] in cut { TrimRightFacts(s[..|s| - 1], cut); }
  }

  /** The rules of a line of a file. */
  lemma RulesKept(line: string)
    requires '\n' !in line && NUL !in line && ParseLine(line).UserLine?
    ensures forall i | 0 <= i < |ParseLine(line).rules| ::
              Kept(ParseLine(line).rules[i]) && NUL !in ParseLine(line).rules[i]
  {
    hide Split, TrimLeft, TrimRight;
    var left := TrimLeft(line, BLANKS);
    var t := Trim(line, BLANKS);
    TrimLeftFacts(line, BLANKS);
    TrimRightFacts(left, BLANKS);
    SplitFree(t, ' ');
    SplitChars(t, ' ', '\n');
    SplitChars(t, ' ', NUL);
    var words := Split(t, ' ');
    forall i | 2 <= i < |words| ensures Kept(Trim(words[i], LINE_ENDS)) && NUL !in Trim(words[i], LINE_ENDS) {
      WordKept(words[i]);
    }
  }

  lemma WordKept(w: string)
    requires ' ' !in w && '\n' !in w && NUL !in w
    ensures Kept(Trim(w, LINE_ENDS)) && NUL !in Trim(w, LINE_ENDS)
  {
    hide TrimLeft, TrimRight;
    TrimLeftFacts(w, LINE_ENDS);
    TrimRightFacts(TrimLeft(w, LINE_ENDS), LINE_ENDS);
    var t := Trim(w, LINE_ENDS);
    if t != [] { assert t[|t| - 1] in t; }
  }

  /** A subcommand is the end of its rule. */
  lemma SubKept(op: string)
    requires Kept(op) && NUL !in op && Parse(op).AllowSub?
    ensures Kept(Parse(op).sub)
  {
    hide Parse, Kept, BarAt, CStr;
    SubIs(op);
    CStrSame(op[1..]);
    var at := BarAt(op[1..]) + 1;
    assert op[1..][at..] == op[1 + at..];
    EndKept(op, 1 + at);
  }

  lemma EndKept(s: string, i: nat)
    requires Kept(s) && i <= |s|
    ensures Kept(s[i..])
  {
    assert forall c | c in s[i..] :: c in s;
  }

  lemma SubIs(op: string)
    requires Parse(op).AllowSub?
    ensures op != []
    ensures var rest := CStr(op[1..]); BarAt(rest) < |rest| && Parse(op).sub == rest[BarAt(rest) + 1..]
  {
    hide Lower, CStr;
  }

  lemma SetBitsKept(u: User, ids: set<nat>, value: bool)
    requires PlainSubs(u)
    ensures PlainSubs(SetBits(u, ids, value))
  {
    hide Kept;
  }

  lemma AddSubKept(u: User, id: nat, x: string)
    requires PlainSubs(u) && Kept(x)
    ensures PlainSubs(AddSub(u, id, x))
  {
    hide Kept, HasSub;
  }

  lemma CommandKept(cfg: Config, u: User, rule: Rule)
    requires PlainSubs(u) && IsCommandRule(rule) && (rule.AllowSub? ==> Kept(rule.sub))
    ensures var r := ApplyCommand(cfg, u, rule); r.Done? ==> PlainSubs(r.user)
  {
    hide PlainSubs, Kept, Lookup, IdsIn, IsCategory, Lower, SetBits, AddSub;
    match rule
    case Allow(name) =>
      if Lookup(cfg, name).Some? { SetBitsKept(u, {Lookup(cfg, name).value.id}, true); }
    case Deny(name) =>
      if Lookup(cfg, name).Some? { SetBitsKept(u, {Lookup(cfg, name).value.id}, false); }
    case AllowSub(name, sub) =>
      if Lookup(cfg, name).Some? { AddSubKept(u, Lookup(cfg, name).value.id, sub); }
    case Category(allow, name) => SetBitsKept(u, IdsIn(cfg.table, Lower(name)), allow);
  }

  lemma RuleKept(cfg: Config, u: User, rule: Rule)
    requires PlainSubs(u) && (rule.AllowSub? ==> Kept(rule.sub))
    ensures var r := Apply(cfg, u, rule); r.Done? ==> PlainSubs(r.user)
  {
    hide ApplyCommand, Kept, PlainSubs;
    if IsCommandRule(rule) {
      CommandKept(cfg, u, rule);
    } else {
      OtherSubs(cfg, u, rule);
      var r := Apply(cfg, u, rule);
      if r.Done? { SameSubs(u, r.user); }
    }
  }

  lemma FlagSubs(u: User, rule: Rule)
    requires IsFlagRule(rule)
    ensures ApplyFlag(u, rule).subs == u.subs
  {
    match rule
    case On =>
    case Off =>
    case SkipSanitize =>
    case Sanitize =>
  }

  lemma PatternsSubs(u: User, rule: Rule)
    requires IsPatternsRule(rule)
    ensures ApplyPatterns(u, rule).subs == u.subs
  {
    match rule
    case AllKeys =>
    case ResetKeys =>
    case AllChannels =>
    case ResetChannels =>
  }

  lemma WordSubs(u: User, rule: Rule)
    requires IsWordRule(rule)
    ensures ApplyWord(u, rule).subs == u.subs || ApplyWord(u, rule).subs == map[]
  {
    hide AllBits, ApplyFlag, ApplyPatterns;
    if IsFlagRule(rule) { FlagSubs(u, rule); }
    if IsPatternsRule(rule) { PatternsSubs(u, rule); }
  }

  lemma PatternSubs(cfg: Config, u: User, rule: Rule)
    requires rule.KeyPattern? || rule.ChannelPattern?
    ensures var r := ApplyList(cfg, u, rule); r.Done? ==> r.user.subs == u.subs
  {
    hide IsHash, HasSpaces, Add, Remove;
  }

  lemma PasswordSubs(cfg: Config, u: User, rule: Rule)
    requires rule.AddPassword? || rule.AddHash? || rule.RemovePassword? || rule.RemoveHash?
    ensures var r := ApplyList(cfg, u, rule); r.Done? ==> r.user.subs == u.subs
  {
    hide IsHash, HasSpaces, Add, Remove;
  }

  lemma ListSubs(cfg: Config, u: User, rule: Rule)
    requires IsListRule(rule)
    ensures var r := ApplyList(cfg, u, rule); r.Done? ==> r.user.subs == u.subs
  {
    hide ApplyList;
    if rule.KeyPattern? || rule.ChannelPattern? { PatternSubs(cfg, u, rule); } else { PasswordSubs(cfg, u, rule); }
  }

  /** Rules that are not about commands leave the subcommands, or clear them. */
  lemma OtherSubs(cfg: Config, u: User, rule: Rule)
    requires !IsCommandRule(rule)
    ensures var r := Apply(cfg, u, rule); r.Done? ==> r.user.subs == u.subs || r.user.subs == map[]
  {
    hide ApplyWord, ApplyList;
    if IsWordRule(rule) {
      WordSubs(u, rule);
    } else if IsListRule(rule) {
      ListSubs(cfg, u, rule);
    }
  }

  lemma SameSubs(u: User, v: User)
    requires PlainSubs(u) && (v.subs == u.subs || v.subs == map[])
    ensures PlainSubs(v)
  {
    hide Kept;
  }

  lemma {:induction false} ApplyAllKept(cfg: Config, u: User, ops: seq<string>)
    requires PlainSubs(u) && forall i | 0 <= i < |ops| :: Kept(ops[i]) && NUL !in ops[i]
    ensures var r := ApplyAll(cfg, u, ops); r.Done? ==> PlainSubs(r.user)
    decreases |ops|
  {
    hide Apply, Parse, PlainSubs, Kept;
    if ops != [] {
      if Parse(ops[0]).AllowSub? { SubKept(ops[0]); }
      RuleKept(cfg, u, Parse(ops[0]));
      var r := Apply(cfg, u, Parse(ops[0]));
      if r.Done? { ApplyAllKept(cfg, r.user, ops[1..]); }
    }
  }

  lemma LineKept(cfg: Config, t: Table, line: string)
    requires PlainTable(t) && '\n' !in line && NUL !in line
    ensures var r := ApplyLine(cfg, t, line); r.Some? ==> PlainTable(r.value)
  {
    hide ParseLine, ApplyAll, Kept;
    if ParseLine(line).UserLine? {
      RulesKept(line);
      ApplyAllKept(cfg, Start(cfg, t, ParseLine(line).name), ParseLine(line).rules);
    }
  }

  lemma {:induction false} LinesKept(cfg: Config, t: Table, lines: seq<string>)
    requires PlainTable(t) && FreeOf(lines, '\n') && FreeOf(lines, NUL)
    ensures var r := ApplyLines(cfg, t, lines); r.Some? ==> PlainTable(r.value)
    decreases |lines|
  {
    hide ApplyLine, PlainTable;
    if lines != [] {
      LineKept(cfg, t, lines[0]);
      var r := ApplyLine(cfg, t, lines[0]);
      if r.Some? { LinesKept(cfg, r.value, lines[1..]); }
    }
  }

  /** Whatever a file without null characters says, the subcommands of its users are plain. */
  lemma LoadedIsPlain(cfg: Config, text: string)
    requires NUL !in text
    ensures var r := Loaded(cfg, Split(text, '\n')); r.Some? ==> PlainTable(r.value)
  {
    hide ApplyLines, Split;
    SplitFree(text, '\n');
    SplitChars(text, '\n', NUL);
    LinesKept(cfg, map["default" := InitialDefault(cfg)], Split(text, '\n'));
  }

  lemma {:induction false} TerminatedFree(words: seq<string>, sep: char, c: char)
    requires FreeOf(words, c) && sep != c
    ensures c !in Terminated(words, sep)
    decreases |words|
  {
    if words != [] { TerminatedFree(words[..|words| - 1], sep, c); }
  }

  lemma SaveLineHasNoNul(cfg: Config, name: string, u: User)
    requires ConfigOk(cfg) && UserOk(cfg, u) && !HasSpaces(name)
    ensures NUL !in SaveLine(cfg, name, u)
  {
    hide ConfigOk, UserOk, Describe, Join;
    DescriptionSolid(cfg, u, false);
    var d := Describe(cfg, u);
    forall i | 0 <= i < |d| ensures NUL !in d[i] { assert Solid(d[i], false); }
    JoinFree(d, ' ', NUL);
    NoSpacesKept(name);
  }

  lemma SavedHasNoNul(cfg: Config, names: seq<string>, table: Table)
    requires ConfigOk(cfg) && TableOk(cfg, table) && forall i | 0 <= i < |names| :: names[i] in table
    ensures NUL !in SaveText(cfg, names, table)
  {
    hide ConfigOk, UserOk, HasSpaces, SaveLine, Terminated;
    var lines := SaveLines(cfg, names, table);
    forall i | 0 <= i < |lines| ensures NUL !in lines[i] { SaveLineHasNoNul(cfg, names[i], table[names[i]]); }
    TerminatedFree(lines, '\n', NUL);
  }

  /**
   A file that was saved gives every user back exactly if the subcommands are plain.  Only the flag for all
   commands is set anew, and the default user, which is reset before its line, asks for sanitizing unless it
   said not to.
   */
  lemma SaveThenLoad(cfg: Config, names: seq<string>, table: Table)
    requires ConfigOk(cfg) && TableOk(cfg, table) && "default" in table
    requires Distinct(names) && forall n :: n in names <==> n in table
    ensures forall i | 0 <= i < |names| :: names[i] in table
    ensures Loaded(cfg, Split(SaveText(cfg, names, table), '\n')) == Some(RestoredTable(table)) <==> PlainTable(table)
  {
    hide ConfigOk, TableOk, Loaded, Split, SaveText, PlainSubs, Restored;
    assert forall i | 0 <= i < |names| :: names[i] in names;
    if PlainTable(table) {
      PlainFileLoads(cfg, names, table);
    }
    SavedHasNoNul(cfg, names, table);
    LoadedIsPlain(cfg, SaveText(cfg, names, table));
    if PlainTable(RestoredTable(table)) { RestoredPlain(table); }
  }

  lemma RestoredPlain(table: Table)
    requires PlainTable(RestoredTable(table))
    ensures PlainTable(table)
  {
    hide Kept;
    forall n | n in table ensures PlainSubs(table[n]) {
      assert n in RestoredTable(table) && RestoredTable(table)[n].subs == table[n].subs;
      SameSubs(RestoredTable(table)[n], table[n]);
    }
  }

  /** Such a subcommand is accepted: with a space in it, say, for any command. */
  lemma BlankInSubcommand(cfg: Config, k: nat, sub: string)
    requires ConfigOk(cfg) && k < |cfg.table| && ' ' in sub && NUL !in sub
    ensures var u := After(cfg, Fresh(cfg), "+" + cfg.table[k].name + "|" + sub); UserOk(cfg, u) && !PlainSubs(u)
  {
    hide ConfigOk, UserOk, Lookup, Parse, Kept;
    var op, id := "+" + cfg.table[k].name + "|" + sub, cfg.table[k].id;
    FreshOk(cfg);
    RuleOk(cfg, Fresh(cfg), op);
    LookupSelf(cfg, k);
    AllowSubParses(cfg.table[k].name, sub);
    OneSub(cfg, cfg.table[k].name, sub, id);
    var u := After(cfg, Fresh(cfg), op);
    assert !Kept(u.subs[id][0]) by { NotKept(sub); }
  }

  lemma NotKept(s: string)
    requires ' ' in s
    ensures !Kept(s)
  {
  }

  lemma OneSub(cfg: Config, name: string, sub: string, id: nat)
    requires Lookup(cfg, name).Some? && Lookup(cfg, name).value.id == id && sub != []
    ensures var r := Apply(cfg, Fresh(cfg), AllowSub(name, sub));
            r.Done? && id in r.user.subs && r.user.subs[id] == [sub]
  {
    hide Lookup, Lower;
    var u := Fresh(cfg);
    assert SubsOf(u, id) == [] && !HasSub([], sub);
    assert [] + [sub] == [sub];
  }

  // ------------------------------------------------------------------- In place

  lemma FailsEarly(cfg: Config, u: User, a: seq<string>, b: seq<string>)
    requires ApplyAll(cfg, u, a).Failed?
    ensures ApplyAll(cfg, u, a + b).Failed?
    decreases |a|
  {
    hide Apply, Parse;
    assert (a + b)[1..] == a[1..] + b;
    if Apply(cfg, u, Parse(a[0])).Done? {
      FailsEarly(cfg, Apply(cfg, u, Parse(a[0])).user, a[1..], b);
    }
  }

  lemma RuleByRule(cfg: Config, u: User, rules: seq<string>, j: nat, m: User)
    requires j < |rules| && ApplyAll(cfg, u, rules[..j]) == Done(m)
    ensures ApplyAll(cfg, u, rules[..j + 1]) == Apply(cfg, m, Parse(rules[j]))
    ensures Apply(cfg, m, Parse(rules[j])).Failed? ==> ApplyAll(cfg, u, rules).Failed?
  {
    hide Apply, Parse, ApplyAll;
    assert rules[..j + 1] == rules[..j] + [rules[j]];
    ApplyLast(cfg, u, rules[..j], rules[j], m);
    if Apply(cfg, m, Parse(rules[j])).Failed? {
      FailsEarly(cfg, u, rules[..j + 1], rules[j + 1..]);
      assert rules[..j + 1] + rules[j + 1..] == rules;
    }
  }

  /** Tries all rules on the stand-in, going on after an error. */
  method TryRules(cfg: Config, fake: UserRecord, rules: seq<string>) returns (ok: bool)
    requires ConfigOk(cfg)
    modifies fake
    ensures ok <==> ApplyAll(cfg, ResetUser(cfg, old(fake.Value())), rules).Done?
  {
    hide ConfigOk, Apply, Parse, ResetUser;
    ghost var u := ResetUser(cfg, fake.Value());
    fake.Clear(cfg);
    ok := true;
    for j := 0 to |rules|
      invariant ok ==> ApplyAll(cfg, u, rules[..j]) == Done(fake.Value())
      invariant !ok ==> ApplyAll(cfg, u, rules).Failed?
    {
      if ok { RuleByRule(cfg, u, rules, j, fake.Value()); }
      var error := fake.SetUser(cfg, rules[j]);
      if error.Some? {
        ok := false;
      }
    }
    assert rules[..|rules|] == rules;
  }

  /** Applies rules that were tried: none of them fails. */
  method ApplyRules(cfg: Config, user: UserRecord, rules: seq<string>)
    requires ConfigOk(cfg) && ApplyAll(cfg, user.Value(), rules).Done?
    modifies user
    ensures user.Value() == ApplyAll(cfg, old(user.Value()), rules).user
  {
    hide ConfigOk, Apply, Parse;
    ghost var u := user.Value();
    for j := 0 to |rules|
      invariant ApplyAll(cfg, u, rules[..j]) == Done(user.Value())
    {
      RuleByRule(cfg, u, rules, j, user.Value());
      var error := user.SetUser(cfg, rules[j]);
      assert error.None?;
    }
    assert rules[..|rules|] == rules;
  }

  function Values(t: map<string, UserRecord>): Table
    reads t.Values
  {
    map n | n in t :: t[n].Value()
  }

  predicate Separate(t: map<string, UserRecord>) {
    forall a, b | a in t && b in t && a != b :: t[a] != t[b]
  }

  method ApplyToNew(cfg: Config, rules: seq<string>) returns (u: UserRecord)
    requires ConfigOk(cfg) && ApplyAll(cfg, Fresh(cfg), rules).Done?
    ensures fresh(u) && u.Value() == ApplyAll(cfg, Fresh(cfg), rules).user
  {
    hide ConfigOk, ApplyAll, Fresh;
    u := new UserRecord(cfg);
    ApplyRules(cfg, u, rules);
  }

  method ApplyToOld(cfg: Config, u: UserRecord, rules: seq<string>)
    requires ConfigOk(cfg) && ApplyAll(cfg, ResetUser(cfg, u.Value()), rules).Done?
    modifies u
    ensures u.Value() == ApplyAll(cfg, ResetUser(cfg, old(u.Value())), rules).user
  {
    hide ConfigOk, ApplyAll, ResetUser;
    u.Clear(cfg);
    ApplyRules(cfg, u, rules);
  }

  /** Applies the rules of a line to the user it names, which is created if need be. */
  method ApplyUserLine(cfg: Config, t: map<string, UserRecord>, name: string, rules: seq<string>)
    returns (r: map<string, UserRecord>)
    requires ConfigOk(cfg) && Separate(t) && ApplyAll(cfg, Start(cfg, Values(t), name), rules).Done?
    modifies if name in t then {t[name]} else {}
    ensures Values(r) == old(Values(t))[name := ApplyAll(cfg, old(Start(cfg, Values(t), name)), rules).user]
    ensures Separate(r) && forall n | n in r :: (n in t && r[n] == t[n]) || (n == name && fresh(r[n]))
  {
    hide ConfigOk, ApplyAll, ResetUser, Fresh;
    if name in t {
      ApplyToOld(cfg, t[name], rules);
      r := t;
    } else {
      var u := ApplyToNew(cfg, rules);
      r := t[name := u];
    }
  }

  lemma {:induction false} LineByLine(cfg: Config, t: Table, lines: seq<string>, i: nat, m: Table)
    requires i < |lines| && ApplyLines(cfg, t, lines[..i]) == Some(m)
    ensures ApplyLines(cfg, t, lines[..i + 1]) == ApplyLine(cfg, m, lines[i])
    ensures ApplyLine(cfg, m, lines[i]).None? ==> ApplyLines(cfg, t, lines).None?
  {
    hide ApplyLine, ApplyLines;
    assert lines[..i + 1] == lines[..i] + [lines[i]];
    LinesConcat(cfg, t, lines[..i], [lines[i]]);
    OneLine(cfg, m, lines[i]);
    if ApplyLine(cfg, m, lines[i]).None? {
      LinesConcat(cfg, t, lines[..i], lines[i..]);
      assert lines[..i] + lines[i..] == lines;
      FirstLineFails(cfg, m, lines[i..]);
    }
  }

  lemma FirstLineFails(cfg: Config, t: Table, lines: seq<string>)
    requires lines != [] && ApplyLine(cfg, t, lines[0]).None?
    ensures ApplyLines(cfg, t, lines).None?
  {
  }

  lemma DefaultInSteps(cfg: Config)
    ensures var all := ApplyWord(ApplyWord(ApplyWord(Fresh(cfg), AllCommands), AllKeys), AllChannels);
            InitialDefault(cfg) == ApplyWord(ApplyWord(all, On), NoPass)
  {
    hide AllBits;
    var a := ApplyWord(Fresh(cfg), AllCommands);
    assert a == Fresh(cfg).(bits := AllBits(), allCommands := true);
    var b := ApplyWord(a, AllKeys);
    assert b == a.(allKeys := true);
    var c := ApplyWord(b, AllChannels);
    assert c == b.(allChannels := true);
  }

  method NewDefault(cfg: Config) returns (d: UserRecord)
    ensures fresh(d) && d.Value() == InitialDefault(cfg)
  {
    hide ApplyWord, Fresh, InitialDefault;
    DefaultInSteps(cfg);
    d := new UserRecord(cfg);
    d.SetWord(AllCommands);
    d.SetWord(AllKeys);
    d.SetWord(AllChannels);
    d.SetWord(On);
    d.SetWord(NoPass);
  }

  /** Tries a line, and applies it if there was no error so far. */
  method LoadLine(cfg: Config, fake: UserRecord, t: map<string, UserRecord>, text: string, ok0: bool)
    returns (ok: bool, r: map<string, UserRecord>)
    requires ConfigOk(cfg) && Separate(t) && forall n | n in t :: t[n] != fake
    modifies fake, t.Values
    ensures ok ==> ok0 && ApplyLine(cfg, old(Values(t)), text) == Some(Values(r))
    ensures !ok ==> !ok0 || ApplyLine(cfg, old(Values(t)), text) == None
    ensures Separate(r) && forall n | n in r :: (fresh(r[n]) || (n in t && r[n] == t[n])) && r[n] != fake
  {
    hide ConfigOk, ParseLine, ApplyAll, Start, ResetUser;
    r := t;
    ok := ok0;
    var line := ParseLine(text);
    if line.Bad? {
      ok := false;
    } else if line.UserLine? {
      StandInTells(cfg, fake.Value(), Values(t), line.name, line.rules);
      ghost var before := Values(t);
      var good := TryRules(cfg, fake, line.rules);
      assert Values(t) == before;
      if !good {
        ok := false;
      }
      if ok {
        r := ApplyUserLine(cfg, t, line.name, line.rules);
      }
    }
  }

  /** Builds the new table, without touching any user there is. */
  method BuildTable(cfg: Config, lines: seq<string>) returns (ok: bool, t: map<string, UserRecord>)
    requires ConfigOk(cfg)
    ensures ok <==> Loaded(cfg, lines).Some?
    ensures ok ==> Values(t) == Loaded(cfg, lines).value
    ensures forall n | n in t :: fresh(t[n])
  {
    hide ConfigOk, InitialDefault, ApplyLine, ApplyLines, Fresh;
    var fake := new UserRecord(cfg);
    var d := NewDefault(cfg);
    t := map["default" := d];
    ok := true;
    ghost var start: Table := map["default" := InitialDefault(cfg)];
    assert Values(t) == start && lines[..0] == [];
    NoLines(cfg, start);
    for i := 0 to |lines|
      invariant fresh(fake) && Separate(t) && forall n | n in t :: fresh(t[n]) && t[n] != fake
      invariant ok ==> ApplyLines(cfg, start, lines[..i]) == Some(Values(t))
      invariant !ok ==> ApplyLines(cfg, start, lines).None?
    {
      if ok { LineByLine(cfg, start, lines, i, Values(t)); }
      ok, t := LoadLine(cfg, fake, t, lines[i], ok);
    }
    assert lines[..|lines|] == lines;
  }

  lemma NoLines(cfg: Config, t: Table)
    ensures ApplyLines(cfg, t, []) == Some(t)
  {
  }

  lemma DefaultLoaded(cfg: Config, lines: seq<string>)
    requires Loaded(cfg, lines).Some?
    ensures "default" in Loaded(cfg, lines).value
  {
    hide ApplyLines, InitialDefault;
    DefaultStays(cfg, map["default" := InitialDefault(cfg)], lines);
  }

  lemma {:induction false} DefaultStays(cfg: Config, t: Table, lines: seq<string>)
    requires "default" in t && ApplyLines(cfg, t, lines).Some?
    ensures "default" in ApplyLines(cfg, t, lines).value
    decreases |lines|
  {
    hide ParseLine, ApplyAll;
    if lines != [] { DefaultStays(cfg, ApplyLine(cfg, t, lines[0]).value, lines[1..]); }
  }

  /** The users of the server. */
  class Acl {
    var users: map<string, UserRecord>
    var defaultUser: UserRecord

    constructor (cfg: Config)
      ensures users == map["default" := defaultUser] && defaultUser.Value() == InitialDefault(cfg)
      ensures fresh(defaultUser)
    {
      var d := NewDefault(cfg);
      users, defaultUser := map["default" := d], d;
    }

    /** Either all of the file is loaded, or no user changes. */
    method LoadFromFile(cfg: Config, lines: seq<string>) returns (ok: bool)
      requires ConfigOk(cfg)
      modifies this, defaultUser
      ensures ok <==> Loaded(cfg, lines).Some?
      ensures !ok ==> unchanged(this) && unchanged(defaultUser)
      ensures ok ==> defaultUser == old(defaultUser) && "default" in users && users["default"] == defaultUser
      ensures ok ==> Values(users) == Loaded(cfg, lines).value
    {
      hide ConfigOk, Loaded, InitialDefault;
      var t;
      ok, t := BuildTable(cfg, lines);
      if ok {
        DefaultLoaded(cfg, lines);
        ghost var v := Values(t);
        defaultUser.CopyFrom(t["default"]);
        users := t["default" := defaultUser];
        assert Values(users) == v;
      }
    }
  }
}
