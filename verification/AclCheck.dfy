/**
 What rules mean for a user (acl.c): the checks of passwords and commands, and how each rule changes their
 answers.
 */
module AclCheck {

  import opened Options
  import opened AclUser
  import opened AclDescribe

  // -------------------------------------------------------------------- The checks

  predicate LogsIn(cfg: Config, u: User, password: string) {
    !u.disabled && (u.noPass || cfg.hash(password) in u.passwords)
  }

  /** Whether a command may be run whose second word, if it has one, is `arg`. */
  predicate MayRun(u: User, id: nat, arg: Option<string>) {
    u.allCommands || id in u.bits || (arg.Some? && HasSub(SubsOf(u, id), CStr(arg.value)))
  }

  method CheckUserCredentials(cfg: Config, u: UserRecord?, password: string) returns (error: Option<Error>)
    ensures error == if u == null then Some(NoEntry)
                     else if LogsIn(cfg, u.Value(), password) then None else Some(InvalidArgument)
  {
    if u == null {
      return Some(NoEntry);
    }
    if u.disabled {
      return Some(InvalidArgument);
    }
    if u.noPass {
      return None;
    }
    var hashed := cfg.hash(password);
    for i := 0 to |u.passwords|
      invariant hashed !in u.passwords[..i]
    {
      if hashed == u.passwords[i] {
        return None;
      }
    }
    assert u.passwords[..|u.passwords|] == u.passwords;
    error := Some(InvalidArgument);
  }

  /** Commands that need no authentication may always be run. */
  method CheckCommand(u: UserRecord, id: nat, noAuth: bool, arg: Option<string>) returns (ok: bool)
    requires forall k | k in u.subs :: SubListOk(u.subs[k])
    ensures ok == (noAuth || MayRun(u.Value(), id, arg))
  {
    hide Lower;
    if u.allCommands || noAuth {
      return true;
    }
    if id !in u.bits {
      if arg.None? || id !in u.subs {
        return false;
      }
      var subid := 0;
      while true
        invariant subid <= |u.subs[id]|
        invariant forall i | 0 <= i < subid :: Lower(u.subs[id][i]) != Lower(CStr(arg.value))
        decreases |u.subs[id]| - subid
      {
        if subid == |u.subs[id]| {
          return false;
        }
        if Lower(CStr(arg.value)) == Lower(u.subs[id][subid]) {
          break;
        }
        subid := subid + 1;
      }
    }
    ok := true;
  }

  // --------------------------------------------------------------------- Passwords

  lemma PasswordText(c: char, t: string)
    requires c == '>' || c == '#' || c == '<' || c == '!'
    ensures ([c] + t)[1..] == t && Parse([c] + t) == ParsePrefixed([c] + t)
  {
    HeadSeen([c] + t);
    hide Lower, CStr, Keyword, ParsePrefixed;
    assert ([c] + t)[1..] == t;
    NotKeyword(Lower(CStr([c] + t)));
  }

  lemma PasswordTexts(t: string)
    ensures Parse(">" + t) == AddPassword(t) && Parse("#" + t) == AddHash(t)
    ensures Parse("<" + t) == RemovePassword(t) && Parse("!" + t) == RemoveHash(t)
  {
    PasswordText('>', t);
    PasswordText('#', t);
    PasswordText('<', t);
    PasswordText('!', t);
  }

  lemma HashOk(cfg: Config, p: string)
    requires ConfigOk(cfg)
    ensures IsHash(cfg.hash(p))
  {
  }

  /** `>p` does what `#` followed by the hash of `p` does. */
  lemma PasswordIsHash(cfg: Config, u: User, p: string)
    requires ConfigOk(cfg)
    ensures Apply(cfg, u, Parse(">" + p)) == Apply(cfg, u, Parse("#" + cfg.hash(p)))
    ensures Apply(cfg, u, Parse("<" + p)) == Apply(cfg, u, Parse("!" + cfg.hash(p)))
  {
    hide Parse, IsHash, ConfigOk, ApplyWord, ApplyCommand, Add, Remove;
    PasswordTexts(p);
    PasswordTexts(cfg.hash(p));
    HashOk(cfg, p);
  }

  /** `#h` puts a hash at the end of the passwords unless it is there, and asks for passwords again. */
  lemma HashAdded(cfg: Config, u: User, h: string)
    ensures var r := Apply(cfg, u, Parse("#" + h));
            if IsHash(h) then
              r == Done(u.(noPass := false,
                           passwords := if h in u.passwords then u.passwords else u.passwords + [h]))
            else r == Failed(BadHash)
  {
    PasswordTexts(h);
    hide Parse, IsHash;
  }

  lemma {:induction false} RemoveAt(s: seq<string>, i: nat)
    requires i < |s| && Distinct(s)
    ensures Remove(s, s[i]) == s[..i] + s[i + 1..]
    decreases |s|
  {
    if i > 0 {
      RemoveAt(s[1..], i - 1);
      assert s[..i] + s[i + 1..] == [s[0]] + (s[1..][..i - 1] + s[1..][i..]);
    }
  }

  /** `!h` fails exactly if the text is no hash or the user has no such hash; else only that hash goes. */
  lemma HashRemoved(cfg: Config, u: User, h: string)
    requires UserOk(cfg, u)
    ensures var r := Apply(cfg, u, Parse("!" + h));
            (r == Failed(BadHash) <==> !IsHash(h)) &&
            (r == Failed(NoPassword) <==> IsHash(h) && h !in u.passwords) &&
            (r.Done? <==> IsHash(h) && h in u.passwords)
    ensures IsHash(h) ==>
              forall i | 0 <= i < |u.passwords| && u.passwords[i] == h ::
                Apply(cfg, u, Parse("!" + h)) == Done(u.(passwords := u.passwords[..i] + u.passwords[i + 1..]))
  {
    PasswordTexts(h);
    assert Distinct(u.passwords);
    hide Parse, IsHash, UserOk, Remove;
    forall i | 0 <= i < |u.passwords| && u.passwords[i] == h
      ensures Remove(u.passwords, h) == u.passwords[..i] + u.passwords[i + 1..]
    {
      RemoveAt(u.passwords, i);
    }
  }

  lemma {:induction false} RemoveLast(s: seq<string>, x: string)
    requires x !in s
    ensures Remove(s + [x], x) == s
    decreases |s|
  {
    if s != [] {
      RemoveLast(s[1..], x);
      assert (s + [x])[1..] == s[1..] + [x];
    }
  }

  /** A password that is given and taken away again leaves the passwords as they were. */
  lemma GivenThenTaken(cfg: Config, u: User, p: string)
    requires cfg.hash(p) !in u.passwords
    ensures ApplyAll(cfg, u, [">" + p, "<" + p]) == Done(u.(noPass := false))
  {
    PasswordTexts(p);
    RemoveLast(u.passwords, cfg.hash(p));
    hide Parse, Remove, ApplyWord, ApplyCommand, ApplyAll;
    var v := u.(noPass := false, passwords := u.passwords + [cfg.hash(p)]);
    assert Apply(cfg, u, AddPassword(p)) == Done(v);
    assert Apply(cfg, v, RemovePassword(p)) == Done(u.(noPass := false));
    hide Apply;
    ApplyOne(cfg, u, ">" + p);
    ApplyOne(cfg, v, "<" + p);
    Then(cfg, u, [">" + p], v, ["<" + p], u.(noPass := false));
    assert [">" + p] + ["<" + p] == [">" + p, "<" + p];
  }

  /** `>p` lets exactly the texts with the hash of `p` in besides those that matched a password before. */
  lemma WhoLogsInWith(cfg: Config, u: User, p: string, q: string)
    ensures var r := Apply(cfg, u, Parse(">" + p));
            r.Done? &&
            (LogsIn(cfg, r.user, q) <==>
             !u.disabled && (cfg.hash(q) == cfg.hash(p) || cfg.hash(q) in u.passwords))
  {
    PasswordTexts(p);
    hide Parse;
  }

  /** `<p` fails exactly if the hash is not there; else exactly the texts with this hash are shut out. */
  lemma WhoLogsInWithout(cfg: Config, u: User, p: string, q: string)
    requires UserOk(cfg, u)
    ensures var r := Apply(cfg, u, Parse("<" + p));
            if cfg.hash(p) in u.passwords then
              r.Done? && (LogsIn(cfg, r.user, q) <==> LogsIn(cfg, u, q) && cfg.hash(q) != cfg.hash(p))
            else r == Failed(NoPassword)
  {
    PasswordTexts(p);
    assert Distinct(u.passwords) && (u.noPass ==> u.passwords == []);
    RemoveDistinct(u.passwords, cfg.hash(p));
    hide Parse, Remove, UserOk;
  }

  predicate IsLoginRule(r: Rule) {
    r.On? || r.Off? || r.NoPass? || r.ResetPass? || r.AddPassword? || r.AddHash? || r.RemovePassword? ||
    r.RemoveHash? || r.Reset?
  }

  /** `nopass`, `off`, `resetpass`, `reset` and `on`. */
  lemma WordsAboutLogin(cfg: Config, u: User, q: string)
    ensures var r := Apply(cfg, u, NoPass); r.Done? && (LogsIn(cfg, r.user, q) <==> !u.disabled)
    ensures var r := Apply(cfg, u, Off); r.Done? && !LogsIn(cfg, r.user, q)
    ensures var r := Apply(cfg, u, ResetPass); r.Done? && !LogsIn(cfg, r.user, q)
    ensures var r := Apply(cfg, u, Reset); r.Done? && !LogsIn(cfg, r.user, q)
    ensures var r := Apply(cfg, u, On);
            r.Done? && (LogsIn(cfg, r.user, q) <==> u.noPass || cfg.hash(q) in u.passwords)
  {
  }

  predicate SameLogin(u: User, v: User) {
    u.disabled == v.disabled && u.noPass == v.noPass && u.passwords == v.passwords
  }

  lemma WordKeepsLogin(u: User, rule: Rule)
    requires IsWordRule(rule) && !IsLoginRule(rule)
    ensures SameLogin(ApplyWord(u, rule), u)
  {
    hide AllBits;
  }

  lemma SetBitsKeepsLogin(u: User, ids: set<nat>, value: bool)
    ensures SameLogin(SetBits(u, ids, value), u)
  {
  }

  lemma AddSubKeepsLogin(u: User, id: nat, sub: string)
    ensures SameLogin(AddSub(u, id, sub), u)
  {
    hide HasSub;
  }

  lemma CommandKeepsLogin(cfg: Config, u: User, rule: Rule)
    requires IsCommandRule(rule)
    ensures ApplyCommand(cfg, u, rule).Done? ==> SameLogin(ApplyCommand(cfg, u, rule).user, u)
  {
    hide Lookup, IdsIn, Lower, IsCategory, SetBits, AddSub;
    match rule
    case Allow(name) =>
      if Lookup(cfg, name).Some? { SetBitsKeepsLogin(u, {Lookup(cfg, name).value.id}, true); }
    case Deny(name) =>
      if Lookup(cfg, name).Some? { SetBitsKeepsLogin(u, {Lookup(cfg, name).value.id}, false); }
    case AllowSub(name, sub) =>
      if Lookup(cfg, name).Some? { AddSubKeepsLogin(u, Lookup(cfg, name).value.id, sub); }
    case Category(allow, name) => SetBitsKeepsLogin(u, IdsIn(cfg.table, Lower(name)), allow);
  }

  /** No rule about keys, channels, commands or payloads has a say in who logs in. */
  lemma OthersKeepLogin(cfg: Config, u: User, rule: Rule, q: string)
    requires !IsLoginRule(rule) && Apply(cfg, u, rule).Done?
    ensures LogsIn(cfg, Apply(cfg, u, rule).user, q) <==> LogsIn(cfg, u, q)
  {
    hide ApplyWord, ApplyCommand, Add, HasSpaces;
    if IsWordRule(rule) { WordKeepsLogin(u, rule); }
    if IsCommandRule(rule) { CommandKeepsLogin(cfg, u, rule); }
  }

  // ---------------------------------------------------------------------- Patterns

  /** A key pattern is refused exactly if all keys are allowed or it has a blank; else it is added once. */
  lemma KeyPatternMeans(cfg: Config, u: User, p: string)
    requires NUL !in p && p != "*"
    ensures var r := Apply(cfg, u, Parse("~" + p));
            (r == Failed(KeyExists) <==> u.allKeys) &&
            (r.Done? <==> !u.allKeys && forall c | c in p :: !IsSpace(c)) &&
            (r.Done? ==> r.user == u.(patterns := if p in u.patterns then u.patterns else u.patterns + [p]))
  {
    hide Parse, ApplyWord, ApplyCommand;
    KeyParses(p);
  }

  /** The same for channels. */
  lemma ChannelPatternMeans(cfg: Config, u: User, p: string)
    requires NUL !in p && p != "*"
    ensures var r := Apply(cfg, u, Parse("&" + p));
            (r == Failed(ChannelExists) <==> u.allChannels) &&
            (r.Done? <==> !u.allChannels && forall c | c in p :: !IsSpace(c)) &&
            (r.Done? ==> r.user == u.(channels := if p in u.channels then u.channels else u.channels + [p]))
  {
    hide Parse, ApplyWord, ApplyCommand;
    ChannelParses(p);
  }

  // ------------------------------------------------------------------------- Words

  predicate IsSmall(w: string) { forall i | 0 <= i < |w| :: w[i] != NUL && !('A' <= w[i] <= 'Z') }

  /** The text reads `w`, but some of its letters may be capitals. */
  predicate InAnyCase(op: string, w: string) {
    |op| == |w| &&
    forall i | 0 <= i < |w| :: op[i] == w[i] || ('A' <= op[i] <= 'Z' && op[i] as int + 32 == w[i] as int)
  }

  /** The case of letters does not matter where texts are compared without regard to it. */
  lemma LowerExactly(op: string, w: string)
    requires IsSmall(w)
    ensures Lower(op) == w <==> InAnyCase(op, w)
  {
    if Lower(op) == w {
      assert forall i | 0 <= i < |op| :: Lower(op)[i] == LowerChar(op[i]);
    }
  }

  /** A word is understood in any case of its letters. */
  lemma WordInAnyCase(op: string, w: string)
    requires w != [] && Keyword(w).Some? && IsSmall(w) && InAnyCase(op, w)
    ensures Parse(op) == Keyword(w).value
  {
    hide Lower, CStr, Keyword;
    LowerExactly(op, w);
    forall i | 0 <= i < |op| ensures op[i] != NUL { assert w[i] != NUL; }
    CStrSame(op);
  }

  lemma WordText(w: string)
    requires w != [] && Keyword(w).Some? && IsSmall(w)
    ensures Parse(w) == Keyword(w).value
  {
    hide Parse, Keyword;
    WordInAnyCase(w, w);
  }

  /** Words and signs that mean the same. */
  lemma Synonyms()
    ensures Parse("allkeys") == Parse("~*") && Parse("allchannels") == Parse("&*")
    ensures Parse("allcommands") == Parse("+@all") && Parse("nocommands") == Parse("-@all")
  {
    hide Parse;
    AllKeysParses();
    AllChannelsParses();
    AllCommandsParses();
    NoCommandsParses();
    WordText("allkeys");
    WordText("allchannels");
    WordText("allcommands");
    WordText("nocommands");
  }

  lemma ResetText()
    ensures Parse("reset") == Reset
  {
    hide Lower, CStr;
    PlainWord("reset");
  }

  /** The words that descriptions of users do not need. */
  lemma OtherWords()
    ensures Parse("resetkeys") == ResetKeys && Parse("resetpass") == ResetPass && Parse("reset") == Reset
  {
    hide Parse;
    WordText("resetkeys");
    WordText("resetpass");
    ResetText();
  }

  // ---------------------------------------------------------------------- Commands

  lemma AllHas(cfg: Config, u: User, id: nat)
    requires UserOk(cfg, u) && id < BITS
    ensures u.allCommands ==> id in u.bits
  {
  }

  lemma NoSubs(x: string)
    ensures !HasSub([], x)
  {
  }

  lemma SetBitsParts(u: User, ids: set<nat>, value: bool, id: nat)
    ensures var v := SetBits(u, ids, value);
            (id in v.bits <==> if id in ids then value else id in u.bits) &&
            SubsOf(v, id) == (if id in ids then [] else SubsOf(u, id)) &&
            v.allCommands == (u.allCommands && (value || ids == {}))
  {
  }

  /** Setting the bits of some commands allows or denies exactly these, with any subcommand. */
  lemma BitsDecide(cfg: Config, u: User, ids: set<nat>, value: bool, id: nat, arg: Option<string>)
    requires UserOk(cfg, u) && id < BITS
    ensures MayRun(SetBits(u, ids, value), id, arg) <==> if id in ids then value else MayRun(u, id, arg)
  {
    hide UserOk, Lower, CStr, HasSub, SetBits, SubsOf;
    AllHas(cfg, u, id);
    if arg.Some? { NoSubs(CStr(arg.value)); }
    SetBitsParts(u, ids, value, id);
  }

  /** A list that has a subcommand in some case has it in every case. */
  lemma SubFound(s: seq<string>, sub: string, x: string)
    requires HasSub(s, sub) && Lower(sub) == Lower(x)
    ensures HasSub(s, x)
  {
    hide Lower;
    var i :| 0 <= i < |s| && Lower(s[i]) == Lower(sub);
  }

  lemma HasSubMore(s: seq<string>, y: string, x: string)
    ensures HasSub(s + [y], x) <==> HasSub(s, x) || Lower(y) == Lower(x)
  {
    hide Lower;
    var t := s + [y];
    assert t[|s|] == y;
    assert forall i | 0 <= i < |s| :: t[i] == s[i];
  }

  lemma AddSubParts(u: User, cmd: nat, sub: string, id: nat)
    ensures var v, s := AddSub(u, cmd, sub), SubsOf(u, cmd);
            v.bits == u.bits && v.allCommands == u.allCommands &&
            SubsOf(v, id) == if id == cmd && !HasSub(s, sub) then s + [sub] else SubsOf(u, id)
  {
    hide HasSub;
  }

  lemma SubAllows(cfg: Config, u: User, cmd: nat, sub: string, id: nat, arg: Option<string>)
    requires cmd !in u.bits && !u.allCommands
    ensures MayRun(AddSub(u, cmd, sub), id, arg)
       <==> MayRun(u, id, arg) || (id == cmd && arg.Some? && Lower(CStr(arg.value)) == Lower(sub))
  {
    AddSubParts(u, cmd, sub, id);
    hide CStr, HasSub, AddSub, Lower;
    var s := SubsOf(u, cmd);
    if arg.Some? {
      if HasSub(s, sub) && Lower(sub) == Lower(CStr(arg.value)) { SubFound(s, sub, CStr(arg.value)); }
      HasSubMore(s, sub, CStr(arg.value));
      hide SubsOf;
    }
  }

  /** `+cmd` allows exactly that command besides, whatever its subcommand; it fails if there is none. */
  lemma AllowMeans(cfg: Config, u: User, name: string, id: nat, arg: Option<string>)
    requires UserOk(cfg, u) && NameOk(name) && id < BITS
    ensures var r, c := Apply(cfg, u, Parse("+" + name)), Lookup(cfg, name);
            if c.None? then r == Failed(NoEntry)
            else r.Done? && (MayRun(r.user, id, arg) <==> id == c.value.id || MayRun(u, id, arg))
  {
    AllowParses(name);
    hide Parse, UserOk, Lookup, MayRun, SetBits, NameOk;
    if Lookup(cfg, name).Some? { BitsDecide(cfg, u, {Lookup(cfg, name).value.id}, true, id, arg); }
  }

  /** `-cmd` denies exactly that command, whatever its subcommand; it fails if there is none. */
  lemma DenyMeans(cfg: Config, u: User, name: string, id: nat, arg: Option<string>)
    requires UserOk(cfg, u) && NameOk(name) && id < BITS
    ensures var r, c := Apply(cfg, u, Parse("-" + name)), Lookup(cfg, name);
            if c.None? then r == Failed(NoEntry)
            else r.Done? && (MayRun(r.user, id, arg) <==> id != c.value.id && MayRun(u, id, arg))
  {
    DenyParses(name);
    hide Parse, UserOk, Lookup, MayRun, SetBits, NameOk;
    if Lookup(cfg, name).Some? { BitsDecide(cfg, u, {Lookup(cfg, name).value.id}, false, id, arg); }
  }

  /** `+cmd|sub` allows exactly that command with that subcommand besides, in any case of its letters. */
  lemma AllowSubMeans(cfg: Config, u: User, name: string, sub: string, id: nat, arg: Option<string>)
    requires ConfigOk(cfg) && UserOk(cfg, u) && NameOk(name) && sub != [] && NUL !in sub && id < BITS
    ensures var r, c := Apply(cfg, u, Parse("+" + name + "|" + sub)), Lookup(cfg, name);
            if c.None? then r == Failed(NoEntry)
            else r.Done? &&
                 (MayRun(r.user, id, arg) <==>
                  MayRun(u, id, arg) || (id == c.value.id && arg.Some? && Lower(CStr(arg.value)) == Lower(sub)))
  {
    hide Parse, UserOk, ConfigOk, Lookup, NameOk, HasSub, AddSub, Lower, CStr, ApplyWord, ApplyList;
    AllowSubParses(name, sub);
    var c := Lookup(cfg, name);
    if c.Some? {
      LookupId(cfg, name);
      AllHas(cfg, u, c.value.id);
      if c.value.id !in u.bits { SubAllows(cfg, u, c.value.id, sub, id, arg); }
    }
  }

  /** `+@cat` allows, and `-@cat` denies, exactly the commands of the category. */
  lemma CategoryMeans(cfg: Config, u: User, allow: bool, name: string, id: nat, arg: Option<string>)
    requires UserOk(cfg, u) && id < BITS
    ensures var r := Apply(cfg, u, Category(allow, name));
            if Lower(name) !in CATEGORIES then r == Failed(NoEntry)
            else r.Done? &&
                 (MayRun(r.user, id, arg) <==>
                  if exists c :: c in cfg.table && c.id == id && Lower(name) in c.categories then allow
                  else MayRun(u, id, arg))
  {
    hide UserOk, MayRun, SetBits, Lower, Lookup;
    var ids := IdsIn(cfg.table, Lower(name));
    BitsDecide(cfg, u, ids, allow, id, arg);
  }

  /** `allcommands`, `nocommands` and `reset`. */
  lemma WordsAboutCommands(cfg: Config, u: User, id: nat, arg: Option<string>)
    ensures var r := Apply(cfg, u, AllCommands); r.Done? && MayRun(r.user, id, arg)
    ensures var r := Apply(cfg, u, NoCommands); r.Done? && !MayRun(r.user, id, arg)
    ensures var r := Apply(cfg, u, Reset); r.Done? && !MayRun(r.user, id, arg)
  {
    hide AllBits, Lower, CStr;
  }

  predicate SameCommands(u: User, v: User) {
    u.allCommands == v.allCommands && u.bits == v.bits && u.subs == v.subs
  }

  lemma WordKeepsCommands(u: User, rule: Rule)
    requires IsWordRule(rule) && !rule.AllCommands? && !rule.NoCommands?
    ensures SameCommands(ApplyWord(u, rule), u)
  {
    hide AllBits;
  }

  /** No other rule has a say in which commands may be run. */
  lemma OthersKeepCommands(cfg: Config, u: User, rule: Rule, id: nat, arg: Option<string>)
    requires !IsCommandRule(rule) && !rule.AllCommands? && !rule.NoCommands? && !rule.Reset?
    requires Apply(cfg, u, rule).Done?
    ensures MayRun(Apply(cfg, u, rule).user, id, arg) <==> MayRun(u, id, arg)
  {
    hide ApplyWord, Add, Remove, HasSpaces, IsHash, HasSub, CStr;
    if IsWordRule(rule) { WordKeepsCommands(u, rule); }
  }
}
