/**
 Substitution of `{...}` variables in service targets.

 `ResolveTarget` is the index loop the Agent runs. Its reference is a target read as a
 list of literal and variable tokens: `Expand` gives the tokens their meaning and
 `ReadingIsUnique` says that any well-formed token list spelling the target has it.
 */
module Resolve {
  import opened Types

  /** Values available to one request; the interface addresses are those found on the host. */
  datatype Context = Context(
    tsIPv4: string,
    tsIPv6: string,
    selfAddr: string,
    linkIPv4: map<string, string>,
    linkIPv6: map<string, string>)

  const LINK_IP := "if.link.ip:"
  const LINK_IPV6 := "if.link.ipv6:"

  function NonEmpty(s: string): Option<string> {
    if s == "" then None else Some(s)
  }

  function ResolveVar(name: string, rc: Context): Option<string> {
    if name == "ts.ip" then NonEmpty(rc.tsIPv4)
    else if name == "ts.ipv6" then NonEmpty(rc.tsIPv6)
    else if name == "self" then NonEmpty(rc.selfAddr)
    else if LINK_IP <= name then
      var iface := name[|LINK_IP|..];
      if iface in rc.linkIPv4 then Some(rc.linkIPv4[iface]) else None
    else if LINK_IPV6 <= name then
      var iface := name[|LINK_IPV6|..];
      if iface in rc.linkIPv6 then Some(rc.linkIPv6[iface]) else None
    else None
  }

  function SelfAddrForRequest(requesterIsIPv6: bool, tsIPv4: string, tsIPv6: string, port: string): string {
    if requesterIsIPv6 && tsIPv6 != "" then "[" + tsIPv6 + "]:" + port
    else if tsIPv4 != "" then tsIPv4 + ":" + port
    else if tsIPv6 != "" then "[" + tsIPv6 + "]:" + port
    else ""
  }

  // Token semantics

  datatype Token = Lit(text: string) | Var(name: string)

  function Spelling(t: Token): string {
    match t
    case Lit(text) => text
    case Var(name) => "{" + name + "}"
  }

  function Spell(ts: seq<Token>): string {
    if ts == [] then "" else Spelling(ts[0]) + Spell(ts[1..])
  }

  function Meaning(t: Token, rc: Context): Option<string> {
    match t
    case Lit(text) => Some(text)
    case Var(name) => ResolveVar(name, rc)
  }

  function Prepend(a: Option<string>, b: Option<string>): Option<string> {
    if a.Some? && b.Some? then Some(a.value + b.value) else None
  }

  function Expand(ts: seq<Token>, rc: Context): Option<string> {
    if ts == [] then Some("") else Prepend(Meaning(ts[0], rc), Expand(ts[1..], rc))
  }

  /** No '}' follows the first '{'. */
  predicate Unclosed(text: string) {
    forall i, j :: 0 <= i < j < |text| && text[i] == '{' ==> text[j] != '}'
  }

  /** Variables end at their first '}'; only the last token may hold an unclosed brace. */
  predicate WellFormed(ts: seq<Token>) {
    forall i :: 0 <= i < |ts| ==>
      match ts[i]
      case Var(name) => '}' !in name
      case Lit(text) => '{' !in text || (i == |ts| - 1 && Unclosed(text))
  }

  /** Stands for the library's byte search. */
  method IndexByte(s: string, c: char) returns (r: int)
    ensures -1 <= r < |s|
    ensures r == -1 <==> c !in s
    ensures r >= 0 ==> s[r] == c && c !in s[..r]
  {
    r := 0;
    while r < |s|
      invariant 0 <= r <= |s|
      invariant c !in s[..r]
    {
      if s[r] == c {
        return;
      }
      r := r + 1;
    }
    return -1;
  }

  lemma {:induction false} FirstOccurrence(s: string, c: char) returns (k: nat)
    requires c in s
    ensures k < |s| && s[k] == c && c !in s[..k]
    decreases |s|
  {
    if s[0] == c {
      k := 0;
    } else {
      var rest := s[1..];
      assert s == [s[0]] + rest;
      k := FirstOccurrence(rest, c);
      assert s[..k + 1] == [s[0]] + rest[..k];
      k := k + 1;
    }
  }

  /** A target cut around its first closed variable. */
  datatype Cut = Cut(before: string, name: string, after: string)

  function Glue(c: Cut): string {
    c.before + ("{" + (c.name + ("}" + c.after)))
  }

  predicate IsFirstCut(c: Cut) {
    '{' !in c.before && '}' !in c.name
  }

  ghost function FirstCut(t: string): (r: Option<Cut>)
    ensures r.Some? ==> IsFirstCut(r.value) && Glue(r.value) == t
    ensures r.None? ==> Unclosed(t)
  {
    if c :| IsFirstCut(c) && Glue(c) == t then Some(c)
    else
      NoCutIsUnclosed(t);
      None
  }

  lemma NoCutIsUnclosed(t: string)
    requires forall c :: !(IsFirstCut(c) && Glue(c) == t)
    ensures Unclosed(t)
  {
    if '{' in t {
      var open := FirstOccurrence(t, '{');
      NoBraceAfter(t, open);
      UnclosedTail(t, open);
    }
  }

  lemma NoBraceAfter(t: string, open: nat)
    requires forall c :: !(IsFirstCut(c) && Glue(c) == t)
    requires open < |t| && t[open] == '{' && '{' !in t[..open]
    ensures '}' !in t[open..]
  {
    if '}' in t[open..] {
      var close := FirstOccurrence(t[open..], '}');
      CutAt(t, open, close);
    }
  }

  lemma UnclosedTail(t: string, open: nat)
    requires open < |t| && '{' !in t[..open] && '}' !in t[open..]
    ensures Unclosed(t)
  {
    forall i | 0 <= i < open
      ensures t[i] != '{'
    {
      assert t[i] == t[..open][i];
    }
    forall j | open <= j < |t|
      ensures t[j] != '}'
    {
      assert t[j] == t[open..][j - open];
    }
  }

  lemma CutAt(t: string, open: nat, close: nat)
    requires open < |t| && t[open] == '{' && '{' !in t[..open]
    requires close < |t| - open && t[open..][close] == '}' && '}' !in t[open..][..close]
    ensures 1 <= close
    ensures var c := Cut(t[..open], t[open..][1..close], t[open..][close + 1..]);
            IsFirstCut(c) && Glue(c) == t
  {
    var tail := t[open..];
    assert tail[0] == '{';
    var name := tail[1..close];
    forall k | 0 <= k < |name|
      ensures name[k] != '}'
    {
      assert name[k] == tail[..close][k + 1];
    }
    assert tail == "{" + (name + ("}" + tail[close + 1..]));
    assert t == t[..open] + tail;
  }

  lemma SliceOfSlice(s: string, i: nat, j: nat, k: nat)
    requires i <= |s| && j <= k <= |s| - i
    ensures s[i..][j..k] == s[i + j..i + k]
    ensures s[i..][j..] == s[i + j..]
  {
  }

  lemma SliceGlue(out: string, s: string, i: nat)
    requires i <= |s|
    ensures out + s[..i] + s[i..] == out + s
  {
    assert s[..i] + s[i..] == s;
    assert out + s[..i] + s[i..] == out + (s[..i] + s[i..]);
  }

  lemma SliceConcat(a: string, b: string)
    ensures (a + b)[..|a|] == a && (a + b)[|a|..] == b
  {
  }

  lemma FirstCutUnique(c: Cut)
    requires IsFirstCut(c)
    ensures FirstCut(Glue(c)) == Some(c)
  {
    CutIsGlued(c);
    GlueIsClosed(c);
    var t, d := Glue(c), FirstCut(Glue(c)).value;
    CutIsGlued(d);
    FirstIsUnique(t, '{', |c.before|, |d.before|);
    FirstIsUnique(t[|c.before|..], '}', |c.name| + 1, |d.name| + 1);
  }

  lemma CutIsGlued(c: Cut)
    requires IsFirstCut(c)
    ensures Glue(c)[|c.before|] == '{' && '{' !in Glue(c)[..|c.before|]
    ensures var tail := Glue(c)[|c.before|..];
            && tail[|c.name| + 1] == '}' && '}' !in tail[..|c.name| + 1]
            && tail[1..|c.name| + 1] == c.name && tail[|c.name| + 2..] == c.after
    ensures Glue(c)[..|c.before|] == c.before
  {
    var tail := "{" + (c.name + ("}" + c.after));
    SliceConcat(c.before, tail);
    NameInTail(c.name, c.after);
  }

  lemma NameInTail(name: string, after: string)
    requires '}' !in name
    ensures var tail := "{" + (name + ("}" + after));
            && tail[|name| + 1] == '}' && '}' !in tail[..|name| + 1]
            && tail[1..|name| + 1] == name && tail[|name| + 2..] == after
  {
    var open, rest := "{" + name, "}" + after;
    var tail := "{" + (name + rest);
    assert tail == open + rest;
    SliceConcat(open, rest);
    assert tail[1..|name| + 1] == open[1..];
    assert tail[|name| + 2..] == rest[1..];
  }

  lemma GlueSpelling(c: Cut)
    ensures Glue(c) == c.before + (Spelling(Var(c.name)) + c.after)
  {
    assert "{" + (c.name + ("}" + c.after)) == ("{" + c.name + "}") + c.after;
  }

  lemma GluePrefix(x: string, c: Cut)
    ensures Glue(c.(before := x + c.before)) == x + Glue(c)
  {
  }

  lemma UnclosedPrefix(x: string, t: string)
    requires '{' !in x && Unclosed(t)
    ensures Unclosed(x + t)
  {
  }

  lemma GlueIsClosed(c: Cut)
    ensures !Unclosed(Glue(c))
  {
    var tail := "{" + (c.name + ("}" + c.after));
    assert Glue(c)[|c.before|] == tail[0] == '{';
    assert Glue(c)[|c.before| + 1 + |c.name|] == tail[1 + |c.name|] == '}';
  }

  /** The tokens the loop reads off a target. */
  ghost function Tokens(t: string): seq<Token>
    decreases |t|
  {
    var r := FirstCut(t);
    if r.None? then [Lit(t)]
    else [Lit(r.value.before)] + ([Var(r.value.name)] + Tokens(r.value.after))
  }

  method ResolveTarget(target: string, rc: Context) returns (r: Option<string>)
    ensures r == Expand(Tokens(target), rc)
  {
    if '{' !in target {
      PlainTail(target, rc);
      return Some(target);
    }
    var out := "";
    var i := 0;
    assert target[0..] == target;
    EmptyPrefix(Expand(Tokens(target), rc));
    while i < |target|
      invariant 0 <= i <= |target|
      invariant Expand(Tokens(target), rc) == Prepend(Some(out), Expand(Tokens(target[i..]), rc))
    {
      var rest := target[i..];
      var open := IndexByte(rest, '{');
      if open < 0 {
        PlainTail(rest, rc);
        return Some(out + rest);
      }
      var close := IndexByte(rest[open..], '}');
      if close < 0 {
        UnclosedTail(rest, open);
        PlainTail(rest, rc);
        SliceGlue(out, rest, open);
        return Some(out + rest[..open] + rest[open..]);
      }
      CutBounds(rest, open, close);
      var val := ResolveVar(rest[open + 1..open + close], rc);
      LoopStep(out, rest, open, close, rc);
      if val.None? {
        return None;
      }
      out := out + rest[..open] + val.value;
      SliceOfSlice(target, i, open + close + 1, |rest|);
      i := i + open + close + 1;
      assert target[i..] == rest[open + close + 1..];
    }
    PlainTail(target[i..], rc);
    assert out + target[i..] == out;
    return Some(out);
  }

  lemma CutBounds(t: string, open: nat, close: nat)
    requires open < |t| && t[open] == '{' && close < |t| - open && t[open..][close] == '}'
    ensures 1 <= close && open + close + 1 <= |t|
  {
    assert t[open..][0] == '{';
  }

  /** One round of the loop: the text before the brace, then the variable's value. */
  lemma LoopStep(out: string, t: string, open: nat, close: nat, rc: Context)
    requires open < |t| && t[open] == '{' && '{' !in t[..open]
    requires 1 <= close < |t| - open && t[open..][close] == '}' && '}' !in t[open..][..close]
    ensures var val := ResolveVar(t[open + 1..open + close], rc);
            Prepend(Some(out), Expand(Tokens(t), rc)) ==
            if val.None? then None
            else Prepend(Some(out + t[..open] + val.value), Expand(Tokens(t[open + close + 1..]), rc))
  {
    CutAt(t, open, close);
    var c := Cut(t[..open], t[open..][1..close], t[open..][close + 1..]);
    CutStep(c, rc);
    SliceOfSlice(t, open, 1, close);
    SliceOfSlice(t, open, close + 1, |t| - open);
    var val := ResolveVar(c.name, rc);
    PrependAssociates(Some(out), Some(c.before), Prepend(val, Expand(Tokens(c.after), rc)));
    PrependAssociates(Some(out + c.before), val, Expand(Tokens(c.after), rc));
  }

  lemma EmptyPrefix(a: Option<string>)
    ensures Prepend(Some(""), a) == a
  {
    if a.Some? {
      assert "" + a.value == a.value;
    }
  }

  lemma PrependAssociates(a: Option<string>, b: Option<string>, c: Option<string>)
    ensures Prepend(Prepend(a, b), c) == Prepend(a, Prepend(b, c))
  {
    if a.Some? && b.Some? && c.Some? {
      assert (a.value + b.value) + c.value == a.value + (b.value + c.value);
    }
  }

  lemma ExpandCons(t: Token, ts: seq<Token>, rc: Context)
    ensures Expand([t] + ts, rc) == Prepend(Meaning(t, rc), Expand(ts, rc))
  {
    assert ([t] + ts)[1..] == ts;
  }

  lemma PlainTail(t: string, rc: Context)
    requires Unclosed(t)
    ensures Expand(Tokens(t), rc) == Some(t)
  {
    if FirstCut(t).Some? {
      GlueIsClosed(FirstCut(t).value);
    }
    assert [Lit(t)] + [] == [Lit(t)];
    ExpandCons(Lit(t), [], rc);
    assert t + "" == t;
  }

  lemma CutStep(c: Cut, rc: Context)
    requires IsFirstCut(c)
    ensures Expand(Tokens(Glue(c)), rc) ==
            Prepend(Some(c.before), Prepend(ResolveVar(c.name, rc), Expand(Tokens(c.after), rc)))
  {
    FirstCutUnique(c);
    ExpandCons(Lit(c.before), [Var(c.name)] + Tokens(c.after), rc);
    ExpandCons(Var(c.name), Tokens(c.after), rc);
  }

  lemma FirstIsUnique(s: string, c: char, j: nat, k: nat)
    requires j < |s| && s[j] == c && c !in s[..j]
    requires k < |s| && s[k] == c && c !in s[..k]
    ensures j == k
  {
    forall i | 0 <= i < j
      ensures s[i] != c
    {
      assert s[i] in s[..j];
    }
    forall i | 0 <= i < k
      ensures s[i] != c
    {
      assert s[i] in s[..k];
    }
  }

  lemma LiteralPrefix(x: string, t: string, rc: Context)
    requires '{' !in x
    ensures Expand(Tokens(x + t), rc) == Prepend(Some(x), Expand(Tokens(t), rc))
  {
    var r := FirstCut(t);
    if r.None? {
      PlainTail(t, rc);
      UnclosedPrefix(x, t);
      PlainTail(x + t, rc);
    } else {
      var c := r.value;
      var d := c.(before := x + c.before);
      GluePrefix(x, c);
      CutStep(c, rc);
      CutStep(d, rc);
      PrependAssociates(Some(x), Some(c.before), Prepend(ResolveVar(c.name, rc), Expand(Tokens(c.after), rc)));
    }
  }

  lemma VariablePrefix(name: string, t: string, rc: Context)
    requires '}' !in name
    ensures Expand(Tokens("{" + name + "}" + t), rc) == Prepend(ResolveVar(name, rc), Expand(Tokens(t), rc))
  {
    var c := Cut("", name, t);
    assert Glue(c) == "{" + name + "}" + t;
    CutStep(c, rc);
    EmptyPrefix(Prepend(ResolveVar(name, rc), Expand(Tokens(t), rc)));
  }

  /** However a target is read as literals and variables, resolving it gives that reading's meaning. */
  lemma {:induction false} ReadingIsUnique(ts: seq<Token>, rc: Context)
    requires WellFormed(ts)
    ensures Expand(Tokens(Spell(ts)), rc) == Expand(ts, rc)
    decreases |ts|
  {
    if ts == [] {
      PlainTail("", rc);
    } else {
      assert forall i :: 0 <= i < |ts| - 1 ==> ts[1..][i] == ts[i + 1];
      ReadingIsUnique(ts[1..], rc);
      match ts[0]
      case Var(name) =>
        VariablePrefix(name, Spell(ts[1..]), rc);
      case Lit(text) =>
        if '{' !in text {
          LiteralPrefix(text, Spell(ts[1..]), rc);
        } else {
          assert ts[1..] == [];
          assert text + "" == text;
          PlainTail(text, rc);
        }
    }
  }

  /** The loop reads every byte of the target, in order, into well-formed tokens. */
  lemma {:induction false} TokensSpellTarget(t: string)
    ensures Spell(Tokens(t)) == t
    ensures WellFormed(Tokens(t))
    decreases |t|
  {
    var r := FirstCut(t);
    if r.None? {
      assert Spell([Lit(t)]) == t + "";
    } else {
      var c := r.value;
      TokensSpellTarget(c.after);
      var rest := Tokens(c.after);
      GlueSpelling(c);
      SpellCons(Lit(c.before), [Var(c.name)] + rest);
      SpellCons(Var(c.name), rest);
      WellFormedCut(c, rest);
    }
  }

  lemma WellFormedCut(c: Cut, rest: seq<Token>)
    requires IsFirstCut(c) && WellFormed(rest)
    ensures WellFormed([Lit(c.before)] + ([Var(c.name)] + rest))
  {
  }

  lemma SpellCons(t: Token, ts: seq<Token>)
    ensures Spell([t] + ts) == Spelling(t) + Spell(ts)
  {
    assert ([t] + ts)[1..] == ts;
  }

  /** Resolution succeeds exactly when every closed variable of the target resolves. */
  lemma {:induction false} SucceedsIff(ts: seq<Token>, rc: Context)
    ensures Expand(ts, rc).Some? <==>
            forall i :: 0 <= i < |ts| && ts[i].Var? ==> ResolveVar(ts[i].name, rc).Some?
    decreases |ts|
  {
    if ts != [] {
      SucceedsIff(ts[1..], rc);
      forall i | 1 <= i < |ts|
        ensures ts[i] == ts[1..][i - 1]
      {
      }
      assert forall i :: 0 <= i < |ts[1..]| ==> ts[1..][i] == ts[i + 1];
    }
  }

  function Substituted(ts: seq<Token>, rc: Context): seq<Token> {
    seq(|ts|, i requires 0 <= i < |ts| =>
      if ts[i].Var? && ResolveVar(ts[i].name, rc).Some? then Lit(ResolveVar(ts[i].name, rc).value) else ts[i])
  }

  lemma {:induction false} SubstitutedSpelling(ts: seq<Token>, rc: Context)
    requires Expand(ts, rc).Some?
    ensures Spell(Substituted(ts, rc)) == Expand(ts, rc).value
    ensures Expand(Substituted(ts, rc), rc) == Expand(ts, rc)
    decreases |ts|
  {
    if ts != [] {
      assert Substituted(ts, rc)[1..] == Substituted(ts[1..], rc);
      SubstitutedSpelling(ts[1..], rc);
    }
  }

  /** Resolving a resolved target changes nothing when no substituted value contains '{'. */
  lemma ResolutionIsIdempotent(target: string, rc: Context)
    requires forall name, v :: ResolveVar(name, rc) == Some(v) ==> '{' !in v
    requires Expand(Tokens(target), rc).Some?
    ensures var resolved := Expand(Tokens(target), rc).value;
            Expand(Tokens(resolved), rc) == Some(resolved)
  {
    var ts := Tokens(target);
    TokensSpellTarget(target);
    SucceedsIff(ts, rc);
    SubstitutedSpelling(ts, rc);
    var us := Substituted(ts, rc);
    forall i | 0 <= i < |us|
      ensures us[i].Lit? && ('{' !in us[i].text || (i == |us| - 1 && Unclosed(us[i].text)))
    {
      if ts[i].Var? {
        assert ResolveVar(ts[i].name, rc) == Some(us[i].text);
      }
    }
    ReadingIsUnique(us, rc);
  }

  /** The target of buckets and proxies resolves to the announced address, if there is one. */
  lemma SelfTargetResolves(rc: Context)
    ensures Expand(Tokens("{self}"), rc) == NonEmpty(rc.selfAddr)
  {
    var ts := [Var("self")];
    assert Spell(ts) == "{self}" by {
      assert ts[1..] == [] && Spelling(ts[0]) == "{" + "self" + "}" == "{self}";
    }
    ReadingIsUnique(ts, rc);
    assert ts[1..] == [];
    assert ResolveVar("self", rc) == NonEmpty(rc.selfAddr);
    if rc.selfAddr != "" {
      assert rc.selfAddr + "" == rc.selfAddr;
    }
  }

  /** There is an announced address exactly when the Agent has an address of either family. */
  lemma SelfAddrKnownIff(requesterIsIPv6: bool, tsIPv4: string, tsIPv6: string, port: string)
    ensures NonEmpty(SelfAddrForRequest(requesterIsIPv6, tsIPv4, tsIPv6, port)).Some? <==> tsIPv4 != "" || tsIPv6 != ""
  {
  }

  // What the variables stand for

  lemma OneVariable(name: string, rc: Context)
    requires '}' !in name
    ensures Expand(Tokens("{" + name + "}"), rc) == ResolveVar(name, rc)
  {
    var ts := [Var(name)];
    assert ts[1..] == [];
    assert Spell(ts) == "{" + name + "}" + "" == "{" + name + "}";
    ReadingIsUnique(ts, rc);
    if ResolveVar(name, rc).Some? {
      assert ResolveVar(name, rc).value + "" == ResolveVar(name, rc).value;
    }
  }

  /** The Agent's own addresses resolve while it has them. */
  lemma OwnVariables(rc: Context)
    ensures Expand(Tokens("{ts.ip}"), rc) == if rc.tsIPv4 != "" then Some(rc.tsIPv4) else None
    ensures Expand(Tokens("{ts.ipv6}"), rc) == if rc.tsIPv6 != "" then Some(rc.tsIPv6) else None
  {
    OneVariable("ts.ip", rc);
    OneVariable("ts.ipv6", rc);
    assert "{" + "ts.ip" + "}" == "{ts.ip}" && "{" + "ts.ipv6" + "}" == "{ts.ipv6}";
  }

  /** Interface addresses resolve exactly if the host has the interface with such an address. */
  lemma InterfaceVariables(iface: string, rc: Context)
    requires '}' !in iface
    ensures Expand(Tokens("{" + ("if.link.ip:" + iface) + "}"), rc) ==
            if iface in rc.linkIPv4 then Some(rc.linkIPv4[iface]) else None
    ensures Expand(Tokens("{" + ("if.link.ipv6:" + iface) + "}"), rc) ==
            if iface in rc.linkIPv6 then Some(rc.linkIPv6[iface]) else None
  {
    var v4, v6 := LINK_IP + iface, LINK_IPV6 + iface;
    OneVariable(v4, rc);
    OneVariable(v6, rc);
    assert v4[|LINK_IP|..] == iface && v6[|LINK_IPV6|..] == iface;
    assert v4[0] == 'i' && v6[0] == 'i' && v6[10] == 'v' && LINK_IP[10] == ':';
  }

  /** No other variable resolves. */
  lemma UnknownVariable(name: string, rc: Context)
    requires '}' !in name && name != "ts.ip" && name != "ts.ipv6" && name != "self"
    requires !("if.link.ip:" <= name) && !("if.link.ipv6:" <= name)
    ensures Expand(Tokens("{" + name + "}"), rc) == None
  {
    OneVariable(name, rc);
  }

  /** A requester is told the address of its own family if the Agent has one, else the other. */
  lemma SelfAddrPrefers(requesterIsIPv6: bool, tsIPv4: string, tsIPv6: string, port: string)
    ensures
      var r := SelfAddrForRequest(requesterIsIPv6, tsIPv4, tsIPv6, port);
      && (tsIPv6 != "" && (requesterIsIPv6 || tsIPv4 == "") ==> r == "[" + tsIPv6 + "]:" + port)
      && (tsIPv4 != "" && (!requesterIsIPv6 || tsIPv6 == "") ==> r == tsIPv4 + ":" + port)
      && (tsIPv4 == "" && tsIPv6 == "" ==> r == "")
  {
  }
}
