/**
 Users and the rules that change them (acl.c).

 A rule is a text such as `on`, `~cached:*` or `+config|get`.  `Parse` tells the kinds of rules apart and
 `Apply` says what each does to a user; class `UserRecord` does it in place.
 */
module AclUser {

  import opened Options

  // ------------------------------------------------------------------------ Text

  const NUL := 0 as char

  function LowerChar(c: char): char {
    if 'A' <= c <= 'Z' then ((c as int) + 32) as char else c
  }

  function Lower(s: string): (r: string)
    ensures |r| == |s|
  {
    seq(|s|, i requires 0 <= i < |s| => LowerChar(s[i]))
  }

  /** The text up to the first null character, which is what C library functions see. */
  function CStr(s: string): (r: string)
    ensures r <= s && NUL !in r
  {
    if s == [] || s[0] == NUL then [] else assert s == [s[0]] + s[1..]; [s[0]] + CStr(s[1..])
  }

  lemma {:induction false} CStrSame(s: string)
    requires NUL !in s
    ensures CStr(s) == s
    decreases |s|
  {
    if s != [] {
      assert s[0] in s;
      CStrSame(s[1..]);
    }
  }

  predicate IsSpace(c: char) {
    c == ' ' || (9 <= c as int <= 13)
  }

  predicate HasSpaces(s: string) {
    exists i | 0 <= i < |s| :: IsSpace(s[i]) || s[i] == NUL
  }

  predicate IsHash(s: string) {
    |s| == 64 && forall i | 0 <= i < 64 :: 'a' <= s[i] <= 'f' || '0' <= s[i] <= '9'
  }

  /** The part before the first bar, and the part behind it. */
  function BarAt(s: string): (i: nat)
    ensures i <= |s| && (forall j | 0 <= j < i :: s[j] != '|') && (i < |s| ==> s[i] == '|')
  {
    if s == [] || s[0] == '|' then 0 else 1 + BarAt(s[1..])
  }

  // -------------------------------------------------------------------- Commands

  datatype Command = Command(name: string, id: nat, categories: set<string>)

  const BITS: nat := 1024
  const RESERVED: nat := 1023

  const CATEGORIES: seq<string> :=
    ["keyspace", "read", "write", "set", "sortedset", "list", "hash", "string", "bitmap", "hyperloglog", "geo",
     "stream", "pubsub", "admin", "fast", "slow", "blocking", "dangerous", "connection", "transaction", "scripting"]

  const CATEGORY_COUNT: nat := 21

  function CategoryName(j: nat): (r: string)
    requires j < CATEGORY_COUNT
    ensures IsCategory(r)
  {
    CATEGORIES[j]
  }

  predicate IsCategory(name: string) { name in CATEGORIES }

  function FirstBits(n: nat): (r: set<nat>)
    ensures forall i: nat :: i in r <==> i < n
  {
    if n == 0 then {} else FirstBits(n - 1) + {n - 1}
  }

  /** All bits, among them the reserved one that stands for commands to come. */
  function AllBits(): set<nat> { FirstBits(BITS) }

  /** What rules are applied against: the command table in the order of its dictionary, and the settings. */
  datatype Config = Config(table: seq<Command>, hash: string -> string, allChannelsByDefault: bool)

  predicate NameOk(s: string) {
    s != [] && s[0] != '@' && !HasSpaces(s) && '|' !in s && Lower(s) == s
  }

  ghost predicate ConfigOk(cfg: Config) {
    (forall i | 0 <= i < |cfg.table| :: NameOk(cfg.table[i].name) && cfg.table[i].id < RESERVED) &&
    (forall i, j | 0 <= i < j < |cfg.table| ::
       cfg.table[i].name != cfg.table[j].name && cfg.table[i].id != cfg.table[j].id) &&
    |cfg.table| <= RESERVED && (forall s :: IsHash(cfg.hash(s)))
  }

  function Find(table: seq<Command>, name: string): Option<Command> {
    if table == [] then None
    else if table[0].name == name then Some(table[0])
    else Find(table[1..], name)
  }

  function Lookup(cfg: Config, name: string): Option<Command> { Find(cfg.table, Lower(CStr(name))) }

  function IdsIn(table: seq<Command>, category: string): set<nat> {
    set i | 0 <= i < |table| && category in table[i].categories :: table[i].id
  }

  function TableIds(table: seq<Command>): set<nat> { set i | 0 <= i < |table| :: table[i].id }

  // ----------------------------------------------------------------------- Users

  datatype User = User(
    enabled: bool, disabled: bool,
    skipSanitize: bool, sanitize: bool,
    allKeys: bool, allChannels: bool, allCommands: bool, noPass: bool,
    bits: set<nat>,
    subs: map<nat, seq<string>>,
    passwords: seq<string>, patterns: seq<string>, channels: seq<string>)

  function Fresh(cfg: Config): User {
    User(false, true, false, false, false, cfg.allChannelsByDefault, false, false, {}, map[], [], [], [])
  }

  // ----------------------------------------------------------------------- Rules

  datatype Rule =
    | NoOperation
    | On | Off | SkipSanitize | Sanitize
    | AllKeys | ResetKeys | AllChannels | ResetChannels
    | AllCommands | NoCommands | NoPass | ResetPass
    | AddPassword(text: string) | AddHash(text: string)
    | RemovePassword(text: string) | RemoveHash(text: string)
    | KeyPattern(text: string) | ChannelPattern(text: string)
    | Allow(name: string) | AllowSub(name: string, sub: string) | Deny(name: string)
    | Category(allow: bool, name: string)
    | Reset
    | Unknown

  function CharAt(s: string, i: nat): char { if i < |s| then s[i] else NUL }

  /** The rules that are words of their own. */
  function Keyword(w: string): Option<Rule> {
    if w == "on" then Some(On)
    else if w == "off" then Some(Off)
    else if w == "skip-sanitize-payload" then Some(SkipSanitize)
    else if w == "sanitize-payload" then Some(Sanitize)
    else if w == "allkeys" || w == "~*" then Some(AllKeys)
    else if w == "resetkeys" then Some(ResetKeys)
    else if w == "allchannels" || w == "&*" then Some(AllChannels)
    else if w == "resetchannels" then Some(ResetChannels)
    else if w == "allcommands" || w == "+@all" then Some(AllCommands)
    else if w == "nocommands" || w == "-@all" then Some(NoCommands)
    else if w == "nopass" then Some(NoPass)
    else if w == "resetpass" then Some(ResetPass)
    else None
  }

  function Parse(op: string): Rule {
    var word := Keyword(Lower(CStr(op)));
    if op == [] then NoOperation else if word.Some? then word.value else ParsePrefixed(op)
  }

  function ParsePrefixed(op: string): Rule
    requires op != []
  {
    var rest := CStr(op[1..]);
    match op[0]
    case '>' => AddPassword(op[1..])
    case '#' => AddHash(op[1..])
    case '<' => RemovePassword(op[1..])
    case '!' => RemoveHash(op[1..])
    case '~' => KeyPattern(op[1..])
    case '&' => ChannelPattern(op[1..])
    case '+' =>
      if CharAt(op, 1) == '@' then Category(true, CStr(op[2..]))
      else if BarAt(rest) == |rest| then Allow(rest)
      else AllowSub(rest[..BarAt(rest)], rest[BarAt(rest) + 1..])
    case '-' => if CharAt(op, 1) == '@' then Category(false, CStr(op[2..])) else Deny(rest)
    case _ => if Lower(CStr(op)) == "reset" then Reset else Unknown
  }

  datatype Error = InvalidArgument | NoEntry | KeyExists | ChannelExists | NoPassword | BadHash

  datatype Result = Done(user: User) | Failed(error: Error)

  function Remove(s: seq<string>, x: string): seq<string> {
    if s == [] then [] else if s[0] == x then s[1..] else [s[0]] + Remove(s[1..], x)
  }

  function Add(s: seq<string>, x: string): seq<string> { if x in s then s else s + [x] }

  function WithoutSubs(subs: map<nat, seq<string>>, ids: set<nat>): map<nat, seq<string>> { subs - ids }

  predicate HasSub(s: seq<string>, x: string) { exists i | 0 <= i < |s| :: Lower(s[i]) == Lower(x) }

  function SubsOf(u: User, id: nat): seq<string> { if id in u.subs then u.subs[id] else [] }

  function AddSub(u: User, id: nat, x: string): User {
    if HasSub(SubsOf(u, id), x) then u else u.(subs := u.subs[id := SubsOf(u, id) + [x]])
  }

  function SetBits(u: User, ids: set<nat>, value: bool): User {
    if value then u.(bits := u.bits + ids, subs := WithoutSubs(u.subs, ids))
    else u.(bits := u.bits - ids, subs := WithoutSubs(u.subs, ids), allCommands := u.allCommands && ids == {})
  }

  function ResetUser(cfg: Config, u: User): User {
    u.(noPass := false, passwords := [], allKeys := false, patterns := [],
       allChannels := cfg.allChannelsByDefault, channels := [],
       enabled := false, disabled := true, skipSanitize := false, sanitize := true,
       bits := {}, allCommands := false, subs := map[])
  }

  predicate IsWordRule(r: Rule) {
    r.On? || r.Off? || r.SkipSanitize? || r.Sanitize? || r.AllKeys? || r.ResetKeys? || r.AllChannels? ||
    r.ResetChannels? || r.AllCommands? || r.NoCommands? || r.NoPass? || r.ResetPass?
  }

  predicate IsListRule(r: Rule) {
    r.AddPassword? || r.AddHash? || r.RemovePassword? || r.RemoveHash? || r.KeyPattern? || r.ChannelPattern?
  }

  predicate IsCommandRule(r: Rule) { r.Allow? || r.AllowSub? || r.Deny? || r.Category? }

  predicate IsFlagRule(r: Rule) { r.On? || r.Off? || r.SkipSanitize? || r.Sanitize? }

  predicate IsPatternsRule(r: Rule) { r.AllKeys? || r.ResetKeys? || r.AllChannels? || r.ResetChannels? }

  function ApplyFlag(u: User, rule: Rule): User
    requires IsFlagRule(rule)
  {
    match rule
    case On => u.(enabled := true, disabled := false)
    case Off => u.(disabled := true, enabled := false)
    case SkipSanitize => u.(skipSanitize := true, sanitize := false)
    case Sanitize => u.(skipSanitize := false, sanitize := true)
  }

  function ApplyPatterns(u: User, rule: Rule): User
    requires IsPatternsRule(rule)
  {
    match rule
    case AllKeys => u.(allKeys := true, patterns := [])
    case ResetKeys => u.(allKeys := false, patterns := [])
    case AllChannels => u.(allChannels := true, channels := [])
    case ResetChannels => u.(allChannels := false, channels := [])
  }

  function ApplyWord(u: User, rule: Rule): User
    requires IsWordRule(rule)
  {
    if IsFlagRule(rule) then ApplyFlag(u, rule)
    else if IsPatternsRule(rule) then ApplyPatterns(u, rule)
    else if rule.AllCommands? then u.(bits := AllBits(), allCommands := true, subs := map[])
    else if rule.NoCommands? then u.(bits := {}, allCommands := false, subs := map[])
    else if rule.NoPass? then u.(noPass := true, passwords := [])
    else u.(noPass := false, passwords := [])
  }

  function ApplyList(cfg: Config, u: User, rule: Rule): Result
    requires IsListRule(rule)
  {
    match rule
    case AddPassword(text) => Done(u.(passwords := Add(u.passwords, cfg.hash(text)), noPass := false))
    case AddHash(text) =>
      if !IsHash(text) then Failed(BadHash) else Done(u.(passwords := Add(u.passwords, text), noPass := false))
    case RemovePassword(text) =>
      if cfg.hash(text) !in u.passwords then Failed(NoPassword)
      else Done(u.(passwords := Remove(u.passwords, cfg.hash(text))))
    case RemoveHash(text) =>
      if !IsHash(text) then Failed(BadHash)
      else if text !in u.passwords then Failed(NoPassword)
      else Done(u.(passwords := Remove(u.passwords, text)))
    case KeyPattern(text) =>
      if u.allKeys then Failed(KeyExists)
      else if HasSpaces(text) then Failed(InvalidArgument)
      else Done(u.(patterns := Add(u.patterns, text)))
    case ChannelPattern(text) =>
      if u.allChannels then Failed(ChannelExists)
      else if HasSpaces(text) then Failed(InvalidArgument)
      else Done(u.(channels := Add(u.channels, text)))
  }

  function ApplyCommand(cfg: Config, u: User, rule: Rule): Result
    requires IsCommandRule(rule)
  {
    match rule
    case Allow(name) =>
      if Lookup(cfg, name).None? then Failed(NoEntry) else Done(SetBits(u, {Lookup(cfg, name).value.id}, true))
    case AllowSub(name, sub) =>
      if Lookup(cfg, name).None? then Failed(NoEntry)
      else if sub == [] then Failed(InvalidArgument)
      else if Lookup(cfg, name).value.id in u.bits then Done(u)
      else Done(AddSub(u, Lookup(cfg, name).value.id, sub))
    case Deny(name) =>
      if Lookup(cfg, name).None? then Failed(NoEntry) else Done(SetBits(u, {Lookup(cfg, name).value.id}, false))
    case Category(allow, name) =>
      if !IsCategory(Lower(name)) then Failed(NoEntry)
      else Done(SetBits(u, IdsIn(cfg.table, Lower(name)), allow))
  }

  function Apply(cfg: Config, u: User, rule: Rule): Result {
    if IsWordRule(rule) then Done(ApplyWord(u, rule))
    else if IsListRule(rule) then ApplyList(cfg, u, rule)
    else if IsCommandRule(rule) then ApplyCommand(cfg, u, rule)
    else if rule.NoOperation? then Done(u)
    else if rule.Reset? then Done(ResetUser(cfg, u))
    else Failed(InvalidArgument)
  }

  /** A rule that fails leaves the user as it was. */
  function After(cfg: Config, u: User, op: string): User {
    var r := Apply(cfg, u, Parse(op));
    if r.Done? then r.user else u
  }

  /** All rules of a list, if each is accepted. */
  function ApplyAll(cfg: Config, u: User, ops: seq<string>): Result
    decreases |ops|
  {
    if ops == [] then Done(u)
    else
      var r := Apply(cfg, u, Parse(ops[0]));
      if r.Failed? then r else ApplyAll(cfg, r.user, ops[1..])
  }

  function Run(cfg: Config, u: User, ops: seq<string>): User
    decreases |ops|
  {
    if ops == [] then u else Run(cfg, After(cfg, u, ops[0]), ops[1..])
  }

  // ------------------------------------------------------------ What users are like

  predicate Distinct(s: seq<string>) { forall i, j | 0 <= i < j < |s| :: s[i] != s[j] }

  /** Bits that no command has follow the reserved one. */
  predicate BitsOk(cfg: Config, bits: set<nat>) {
    bits <= AllBits() && (forall i | i in AllBits() && i !in TableIds(cfg.table) :: i in bits <==> RESERVED in bits)
  }

  predicate SubListOk(s: seq<string>) {
    s != [] && (forall i | 0 <= i < |s| :: s[i] != [] && NUL !in s[i]) &&
    (forall i, j | 0 <= i < j < |s| :: Lower(s[i]) != Lower(s[j]))
  }

  /** Only commands that are not allowed as a whole have subcommands. */
  predicate SubsOk(cfg: Config, bits: set<nat>, subs: map<nat, seq<string>>) {
    forall id | id in subs :: id in TableIds(cfg.table) && id !in bits && SubListOk(subs[id])
  }

  predicate PatternsOk(all: bool, s: seq<string>) {
    (all ==> s == []) && Distinct(s) && forall i | 0 <= i < |s| :: !HasSpaces(s[i]) && s[i] != "*"
  }

  predicate PasswordsOk(noPass: bool, s: seq<string>) {
    (noPass ==> s == []) && Distinct(s) && forall i | 0 <= i < |s| :: IsHash(s[i])
  }

  predicate UserOk(cfg: Config, u: User) {
    u.enabled != u.disabled && !(u.skipSanitize && u.sanitize) && (u.allCommands ==> u.bits == AllBits()) &&
    BitsOk(cfg, u.bits) && SubsOk(cfg, u.bits, u.subs) &&
    PatternsOk(u.allKeys, u.patterns) && PatternsOk(u.allChannels, u.channels) && PasswordsOk(u.noPass, u.passwords)
  }

  lemma FreshOk(cfg: Config)
    ensures UserOk(cfg, Fresh(cfg))
  {
  }

  lemma {:induction false} RemoveDistinct(s: seq<string>, x: string)
    requires Distinct(s)
    ensures Distinct(Remove(s, x)) && forall y :: y in Remove(s, x) <==> y in s && y != x
    decreases |s|
  {
    if s != [] {
      RemoveDistinct(s[1..], x);
      assert s == [s[0]] + s[1..];
      assert s[0] !in s[1..];
      forall y ensures y in Remove(s, x) <==> y in s && y != x {
        assert y in s <==> y == s[0] || y in s[1..];
      }
    }
  }

  lemma FindInTable(table: seq<Command>, name: string)
    ensures var r := Find(table, name); r.Some? ==> r.value in table && r.value.name == name
  {
  }

  lemma LookupId(cfg: Config, name: string)
    requires ConfigOk(cfg) && Lookup(cfg, name).Some?
    ensures Lookup(cfg, name).value.id in TableIds(cfg.table) && Lookup(cfg, name).value.id < RESERVED
  {
    FindInTable(cfg.table, Lower(CStr(name)));
  }

  lemma SetBitsBits(cfg: Config, bits: set<nat>, ids: set<nat>)
    requires ConfigOk(cfg) && BitsOk(cfg, bits) && ids <= TableIds(cfg.table)
    ensures BitsOk(cfg, bits + ids) && BitsOk(cfg, bits - ids) && (bits == AllBits() ==> bits + ids == AllBits())
  {
  }

  lemma SetBitsOk(cfg: Config, u: User, ids: set<nat>, value: bool)
    requires ConfigOk(cfg) && UserOk(cfg, u) && ids <= TableIds(cfg.table)
    ensures UserOk(cfg, SetBits(u, ids, value))
  {
  }

  lemma IdsInTable(table: seq<Command>, category: string)
    ensures IdsIn(table, category) <= TableIds(table)
  {
  }

  lemma AddSubOk(cfg: Config, u: User, id: nat, x: string)
    requires UserOk(cfg, u) && id in TableIds(cfg.table) && id !in u.bits && x != [] && NUL !in x
    ensures UserOk(cfg, AddSub(u, id, x))
  {
    hide BitsOk, PatternsOk, PasswordsOk, Lower;
    var s := SubsOf(u, id);
    if !HasSub(s, x) {
      var t := s + [x];
      assert SubListOk(t) by {
        assert forall i | 0 <= i < |s| :: t[i] == s[i];
        assert id in u.subs ==> SubListOk(s);
      }
    }
  }

  lemma PatternOk(s: seq<string>, x: string)
    requires PatternsOk(false, s) && !HasSpaces(x) && x != "*"
    ensures PatternsOk(false, Add(s, x))
  {
  }

  lemma PasswordOk(s: seq<string>, x: string)
    requires Distinct(s) && (forall i | 0 <= i < |s| :: IsHash(s[i])) && IsHash(x)
    ensures PasswordsOk(false, Add(s, x))
  {
  }

  lemma LessPasswordsOk(noPass: bool, s: seq<string>, x: string)
    requires PasswordsOk(noPass, s)
    ensures PasswordsOk(noPass, Remove(s, x))
  {
    hide IsHash;
    RemoveDistinct(s, x);
    forall i | 0 <= i < |Remove(s, x)| ensures IsHash(Remove(s, x)[i]) {
      assert Remove(s, x)[i] in Remove(s, x);
    }
  }

  lemma KeywordKinds(w: string)
    ensures var k := Keyword(w);
            k.Some? ==> !k.value.KeyPattern? && !k.value.ChannelPattern? && !k.value.AllowSub?
  {
  }

  lemma StarParses(op: string)
    ensures op == "~*" ==> Parse(op) == AllKeys
    ensures op == "&*" ==> Parse(op) == AllChannels
  {
    if op == "~*" || op == "&*" {
      CStrSame(op);
      assert Lower(op) == op;
    }
  }

  lemma SubHasNoNul(op: string)
    requires op != []
    ensures var r := ParsePrefixed(op); r.AllowSub? ==> NUL !in r.sub
  {
  }

  /** Texts that read `~*` or `&*` are not taken as patterns, and subcommands contain no null character. */
  lemma ParseFacts(op: string)
    ensures var r := Parse(op);
            (r.KeyPattern? || r.ChannelPattern? ==> r.text != "*") && (r.AllowSub? ==> NUL !in r.sub)
  {
    hide Lower, CStr;
    KeywordKinds(Lower(CStr(op)));
    StarParses(op);
    hide Keyword;
    if op != [] {
      assert op == [op[0]] + op[1..];
      SubHasNoNul(op);
    }
  }

  lemma CommandRuleOk(cfg: Config, u: User, rule: Rule)
    requires ConfigOk(cfg) && UserOk(cfg, u) && (rule.AllowSub? ==> NUL !in rule.sub)
    requires IsCommandRule(rule)
    ensures ApplyCommand(cfg, u, rule).Done? ==> UserOk(cfg, ApplyCommand(cfg, u, rule).user)
  {
    hide UserOk, ConfigOk, TableIds, IdsIn, SetBits, AddSub, Lookup, IsCategory;
    if ApplyCommand(cfg, u, rule).Done? {
      match rule
      case Allow(name) =>
        LookupId(cfg, name);
        SetBitsOk(cfg, u, {Lookup(cfg, name).value.id}, true);
      case Deny(name) =>
        LookupId(cfg, name);
        SetBitsOk(cfg, u, {Lookup(cfg, name).value.id}, false);
      case AllowSub(name, sub) =>
        LookupId(cfg, name);
        if Lookup(cfg, name).value.id !in u.bits {
          AddSubOk(cfg, u, Lookup(cfg, name).value.id, sub);
        }
      case Category(allow, name) =>
        IdsInTable(cfg.table, Lower(name));
        SetBitsOk(cfg, u, IdsIn(cfg.table, Lower(name)), allow);
    }
  }

  lemma ListRuleOk(cfg: Config, u: User, rule: Rule)
    requires ConfigOk(cfg) && UserOk(cfg, u) && (rule.KeyPattern? || rule.ChannelPattern? ==> rule.text != "*")
    requires IsListRule(rule)
    ensures ApplyList(cfg, u, rule).Done? ==> UserOk(cfg, ApplyList(cfg, u, rule).user)
  {
    assert IsHash(cfg.hash(rule.text));
    hide BitsOk, SubsOk, ConfigOk, PatternsOk, AllBits, IsHash, HasSpaces;
    match rule
    case AddPassword(text) => PasswordOk(u.passwords, cfg.hash(text));
    case AddHash(text) => if IsHash(text) { PasswordOk(u.passwords, text); }
    case RemovePassword(text) => LessPasswordsOk(u.noPass, u.passwords, cfg.hash(text));
    case RemoveHash(text) => LessPasswordsOk(u.noPass, u.passwords, text);
    case KeyPattern(text) => if !u.allKeys && !HasSpaces(text) { PatternOk(u.patterns, text); }
    case ChannelPattern(text) => if !u.allChannels && !HasSpaces(text) { PatternOk(u.channels, text); }
  }

  lemma FlagRuleOk(cfg: Config, u: User, rule: Rule)
    requires UserOk(cfg, u) && IsFlagRule(rule)
    ensures UserOk(cfg, ApplyFlag(u, rule))
  {
    hide BitsOk, SubsOk, PatternsOk, PasswordsOk, AllBits;
  }

  lemma NoPatternsOk()
    ensures PatternsOk(true, []) && PatternsOk(false, [])
  {
  }

  lemma PatternsRuleOk(cfg: Config, u: User, rule: Rule)
    requires UserOk(cfg, u) && IsPatternsRule(rule)
    ensures UserOk(cfg, ApplyPatterns(u, rule))
  {
    hide BitsOk, SubsOk, PatternsOk, PasswordsOk, AllBits;
    NoPatternsOk();
  }

  lemma AllOrNoneOk(cfg: Config)
    ensures BitsOk(cfg, AllBits()) && BitsOk(cfg, {}) && SubsOk(cfg, AllBits(), map[]) && SubsOk(cfg, {}, map[])
  {
  }

  lemma WordRuleOk(cfg: Config, u: User, rule: Rule)
    requires UserOk(cfg, u) && IsWordRule(rule)
    ensures UserOk(cfg, ApplyWord(u, rule))
  {
    hide BitsOk, SubsOk, PatternsOk, AllBits, ApplyFlag, ApplyPatterns, IsHash;
    AllOrNoneOk(cfg);
    if IsFlagRule(rule) { FlagRuleOk(cfg, u, rule); }
    if IsPatternsRule(rule) { PatternsRuleOk(cfg, u, rule); }
  }

  lemma ResetOk(cfg: Config, u: User)
    ensures UserOk(cfg, ResetUser(cfg, u))
  {
  }

  /** Every rule keeps users as they should be. */
  lemma RuleOk(cfg: Config, u: User, op: string)
    requires ConfigOk(cfg) && UserOk(cfg, u)
    ensures UserOk(cfg, After(cfg, u, op))
  {
    hide Parse, UserOk, ConfigOk, ApplyWord, ApplyList, ApplyCommand, ResetUser;
    ParseFacts(op);
    var rule := Parse(op);
    if IsWordRule(rule) {
      WordRuleOk(cfg, u, rule);
    } else if IsListRule(rule) {
      ListRuleOk(cfg, u, rule);
    } else if IsCommandRule(rule) {
      CommandRuleOk(cfg, u, rule);
    } else if rule.Reset? {
      ResetOk(cfg, u);
    }
  }

  lemma {:induction false} RunOk(cfg: Config, u: User, ops: seq<string>)
    requires ConfigOk(cfg) && UserOk(cfg, u)
    ensures UserOk(cfg, Run(cfg, u, ops))
    decreases |ops|
  {
    hide UserOk, ConfigOk, After;
    if ops != [] {
      RuleOk(cfg, u, ops[0]);
      RunOk(cfg, After(cfg, u, ops[0]), ops[1..]);
    }
  }

  // -------------------------------------------------------------------- In place

  lemma IdsInMore(table: seq<Command>, k: nat, category: string)
    requires k < |table|
    ensures IdsIn(table[..k + 1], category)
         == IdsIn(table[..k], category) + (if category in table[k].categories then {table[k].id} else {})
  {
  }

  lemma SetBitsMore(u: User, ids: set<nat>, id: nat, value: bool)
    ensures SetBits(SetBits(u, ids, value), {id}, value) == SetBits(u, ids + {id}, value)
  {
  }

  lemma SetBitsNone(u: User, value: bool)
    ensures SetBits(u, {}, value) == u
  {
  }

  function ResetChannelsOf(cfg: Config, u: User): User {
    var v := ApplyWord(u, ResetChannels);
    if cfg.allChannelsByDefault then ApplyWord(v, AllChannels) else v
  }

  lemma ResetPassAndKeys(u: User)
    ensures ApplyWord(u, ResetPass) == u.(noPass := false, passwords := [])
    ensures ApplyWord(u, ResetKeys) == u.(allKeys := false, patterns := [])
  {
  }

  lemma ResetChannelsWords(u: User)
    ensures ApplyWord(u, ResetChannels) == u.(allChannels := false, channels := [])
    ensures ApplyWord(u, AllChannels) == u.(allChannels := true, channels := [])
  {
  }

  lemma ResetFlags(u: User)
    ensures ApplyWord(u, Off) == u.(disabled := true, enabled := false)
    ensures ApplyWord(u, Sanitize) == u.(skipSanitize := false, sanitize := true)
    ensures ApplyWord(u, NoCommands) == u.(bits := {}, allCommands := false, subs := map[])
  {
  }

  lemma ResetInSteps(cfg: Config, u: User)
    ensures ResetUser(cfg, u)
         == ApplyWord(ApplyWord(ApplyWord(
              ResetChannelsOf(cfg, ApplyWord(ApplyWord(u, ResetPass), ResetKeys)), Off), Sanitize), NoCommands)
  {
    hide ApplyWord;
    ResetPassAndKeys(u);
    var a := ApplyWord(u, ResetPass);
    ResetPassAndKeys(a);
    var b := ApplyWord(a, ResetKeys);
    ResetChannelsWords(b);
    ResetChannelsWords(ApplyWord(b, ResetChannels));
    var c := ResetChannelsOf(cfg, b);
    ResetFlags(c);
    var d := ApplyWord(c, Off);
    ResetFlags(d);
    ResetFlags(ApplyWord(d, Sanitize));
  }

  /** A user as the server keeps it. */
  class UserRecord {
    var enabled: bool
    var disabled: bool
    var skipSanitize: bool
    var sanitize: bool
    var allKeys: bool
    var allChannels: bool
    var allCommands: bool
    var noPass: bool
    var bits: set<nat>
    var subs: map<nat, seq<string>>
    var passwords: seq<string>
    var patterns: seq<string>
    var channels: seq<string>

    function Value(): User
      reads this
    {
      User(enabled, disabled, skipSanitize, sanitize, allKeys, allChannels, allCommands, noPass,
           bits, subs, passwords, patterns, channels)
    }

    constructor (cfg: Config)
      ensures Value() == Fresh(cfg)
    {
      enabled, disabled, skipSanitize, sanitize := false, true, false, false;
      allKeys, allChannels, allCommands, noPass := false, cfg.allChannelsByDefault, false, false;
      bits, subs, passwords, patterns, channels := {}, map[], [], [], [];
    }

    method SetCommandBit(id: nat, value: bool)
      requires id < BITS
      modifies this`bits, this`allCommands
      ensures bits == if value then old(bits) + {id} else old(bits) - {id}
      ensures allCommands == (old(allCommands) && value)
    {
      if value {
        bits := bits + {id};
      } else {
        bits := bits - {id};
        allCommands := false;
      }
    }

    method SetCommand(id: nat, value: bool)
      requires id < BITS
      modifies this
      ensures Value() == SetBits(old(Value()), {id}, value)
    {
      SetCommandBit(id, value);
      subs := subs - {id};
    }

    /** All commands of a category, one by one. */
    method SetCategory(cfg: Config, category: string, value: bool)
      requires forall i | 0 <= i < |cfg.table| :: cfg.table[i].id < BITS
      modifies this
      ensures Value() == SetBits(old(Value()), IdsIn(cfg.table, category), value)
    {
      ghost var u := Value();
      assert IdsIn(cfg.table[..0], category) == {};
      SetBitsNone(u, value);
      hide SetBits, IdsIn;
      for k := 0 to |cfg.table|
        invariant Value() == SetBits(u, IdsIn(cfg.table[..k], category), value)
      {
        IdsInMore(cfg.table, k, category);
        if category in cfg.table[k].categories {
          SetBitsMore(u, IdsIn(cfg.table[..k], category), cfg.table[k].id, value);
          SetCommand(cfg.table[k].id, value);
        } else {
          assert IdsIn(cfg.table[..k], category) + {} == IdsIn(cfg.table[..k], category);
        }
      }
      assert cfg.table[..|cfg.table|] == cfg.table;
    }

    /** Does nothing if the subcommand is there, in whatever case. */
    method AddAllowedSubcommand(id: nat, sub: string)
      modifies this`subs
      ensures Value() == AddSub(old(Value()), id, sub)
    {
      hide Lower;
      var list := if id in subs then subs[id] else [];
      var items := 0;
      while items < |list|
        invariant items <= |list| && forall i | 0 <= i < items :: Lower(list[i]) != Lower(sub)
      {
        if Lower(list[items]) == Lower(sub) {
          return;
        }
        items := items + 1;
      }
      subs := subs[id := list + [sub]];
    }

    method SetFlag(rule: Rule)
      requires IsFlagRule(rule)
      modifies this`enabled, this`disabled, this`skipSanitize, this`sanitize
      ensures Value() == ApplyFlag(old(Value()), rule)
    {
      match rule
      case On => enabled, disabled := true, false;
      case Off => disabled, enabled := true, false;
      case SkipSanitize => skipSanitize, sanitize := true, false;
      case Sanitize => skipSanitize, sanitize := false, true;
    }

    method SetPatterns(rule: Rule)
      requires IsPatternsRule(rule)
      modifies this`allKeys, this`patterns, this`allChannels, this`channels
      ensures Value() == ApplyPatterns(old(Value()), rule)
    {
      match rule
      case AllKeys => allKeys, patterns := true, [];
      case ResetKeys => allKeys, patterns := false, [];
      case AllChannels => allChannels, channels := true, [];
      case ResetChannels => allChannels, channels := false, [];
    }

    method SetWord(rule: Rule)
      requires IsWordRule(rule)
      modifies this
      ensures Value() == ApplyWord(old(Value()), rule)
    {
      hide AllBits, ApplyFlag, ApplyPatterns;
      if IsFlagRule(rule) {
        SetFlag(rule);
      } else if IsPatternsRule(rule) {
        SetPatterns(rule);
      } else if rule.AllCommands? {
        bits, allCommands, subs := AllBits(), true, map[];
      } else if rule.NoCommands? {
        bits, allCommands, subs := {}, false, map[];
      } else if rule.NoPass? {
        noPass, passwords := true, [];
      } else {
        noPass, passwords := false, [];
      }
    }

    method Clear(cfg: Config)
      modifies this
      ensures Value() == ResetUser(cfg, old(Value()))
    {
      hide ApplyWord, ResetUser;
      ResetInSteps(cfg, Value());
      SetWord(ResetPass);
      SetWord(ResetKeys);
      SetWord(ResetChannels);
      if cfg.allChannelsByDefault {
        SetWord(AllChannels);
      }
      SetWord(Off);
      SetWord(Sanitize);
      SetWord(NoCommands);
    }

    /** Applies a rule about passwords or patterns. */
    method SetList(cfg: Config, rule: Rule) returns (error: Option<Error>)
      requires IsListRule(rule)
      modifies this`passwords, this`noPass, this`patterns, this`channels
      ensures ApplyList(cfg, old(Value()), rule) == if error.None? then Done(Value()) else Failed(error.value)
      ensures error.Some? ==> Value() == old(Value())
    {
      hide IsHash, HasSpaces, Add, Remove;
      error := None;
      match rule
      case AddPassword(text) => passwords, noPass := Add(passwords, cfg.hash(text)), false;
      case AddHash(text) =>
        if !IsHash(text) {
          return Some(BadHash);
        }
        passwords, noPass := Add(passwords, text), false;
      case RemovePassword(text) =>
        if cfg.hash(text) !in passwords {
          return Some(NoPassword);
        }
        passwords := Remove(passwords, cfg.hash(text));
      case RemoveHash(text) =>
        if !IsHash(text) {
          return Some(BadHash);
        }
        if text !in passwords {
          return Some(NoPassword);
        }
        passwords := Remove(passwords, text);
      case KeyPattern(text) =>
        if allKeys {
          return Some(KeyExists);
        }
        if HasSpaces(text) {
          return Some(InvalidArgument);
        }
        patterns := Add(patterns, text);
      case ChannelPattern(text) =>
        if allChannels {
          return Some(ChannelExists);
        }
        if HasSpaces(text) {
          return Some(InvalidArgument);
        }
        channels := Add(channels, text);
    }

    /** Applies a rule about commands. */
    method SetCommands(cfg: Config, rule: Rule) returns (error: Option<Error>)
      requires ConfigOk(cfg) && IsCommandRule(rule)
      modifies this
      ensures ApplyCommand(cfg, old(Value()), rule) == if error.None? then Done(Value()) else Failed(error.value)
      ensures error.Some? ==> Value() == old(Value())
    {
      assert forall i | 0 <= i < |cfg.table| :: cfg.table[i].id < BITS;
      hide ConfigOk, SetBits, IdsIn, AddSub, Lower, IsCategory, Lookup;
      error := None;
      if rule.Category? {
        if !IsCategory(Lower(rule.name)) {
          return Some(NoEntry);
        }
        SetCategory(cfg, Lower(rule.name), rule.allow);
        return;
      }
      var cmd := Lookup(cfg, rule.name);
      if cmd.None? {
        return Some(NoEntry);
      }
      LookupId(cfg, rule.name);
      match rule
      case AllowSub(_, sub) =>
        if sub == [] {
          return Some(InvalidArgument);
        }
        if cmd.value.id !in bits {
          AddAllowedSubcommand(cmd.value.id, sub);
        }
      case Allow(_) => SetCommand(cmd.value.id, true);
      case Deny(_) => SetCommand(cmd.value.id, false);
    }

    /** Applies one rule, or leaves the user as it is and says what is wrong. */
    method SetUser(cfg: Config, op: string) returns (error: Option<Error>)
      requires ConfigOk(cfg)
      modifies this
      ensures Apply(cfg, old(Value()), Parse(op)) == if error.None? then Done(Value()) else Failed(error.value)
      ensures Value() == After(cfg, old(Value()), op)
    {
      hide Parse, ConfigOk, ApplyWord, ApplyList, ApplyCommand, ResetUser;
      var rule := Parse(op);
      error := None;
      if IsWordRule(rule) {
        SetWord(rule);
      } else if IsListRule(rule) {
        error := SetList(cfg, rule);
      } else if IsCommandRule(rule) {
        error := SetCommands(cfg, rule);
      } else if rule.Reset? {
        Clear(cfg);
      } else if !rule.NoOperation? {
        error := Some(InvalidArgument);
      }
    }

    method CopyModes(src: UserRecord)
      modifies this`enabled, this`disabled, this`skipSanitize, this`sanitize
      ensures enabled == src.enabled && disabled == src.disabled
      ensures skipSanitize == src.skipSanitize && sanitize == src.sanitize
    {
      enabled, disabled, skipSanitize, sanitize := src.enabled, src.disabled, src.skipSanitize, src.sanitize;
    }

    method CopyAlls(src: UserRecord)
      modifies this`allKeys, this`allChannels, this`allCommands, this`noPass
      ensures allKeys == src.allKeys && allChannels == src.allChannels
      ensures allCommands == src.allCommands && noPass == src.noPass
    {
      allKeys, allChannels, allCommands, noPass := src.allKeys, src.allChannels, src.allCommands, src.noPass;
    }

    method CopyLists(src: UserRecord)
      modifies this`bits, this`subs, this`passwords, this`patterns, this`channels
      ensures bits == src.bits && subs == src.subs
      ensures passwords == src.passwords && patterns == src.patterns && channels == src.channels
    {
      bits, subs := src.bits, src.subs;
      passwords, patterns, channels := src.passwords, src.patterns, src.channels;
    }

    /** Takes over all rules of another user. */
    method CopyFrom(src: UserRecord)
      requires src != this
      modifies this
      ensures Value() == src.Value()
    {
      CopyModes(src);
      CopyAlls(src);
      CopyLists(src);
      ghost var u, v := Value(), src.Value();
      assert u.enabled == v.enabled && u.disabled == v.disabled && u.sanitize == v.sanitize;
      assert u.bits == v.bits && u.subs == v.subs;
      hide *;
    }
  }
}
