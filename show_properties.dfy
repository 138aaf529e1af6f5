/** What the show route promises: the key/value pattern, the records
    `parse_ovs_list` returns, the derived switch identity, the name lookups and the
    snapshot document. */
module ShowProperties {
  import opened Wrappers
  import opened PyStr
  import opened SshUtils
  import opened OvsShow

  // ---------------------------------------------------------------- the key/value pattern

  predicate PlainKey(k: string) {
    k != [] && forall i :: 0 <= i < |k| ==> k[i] !in Whitespace && k[i] != ':'
  }

  predicate AllWhitespace(s: string) {
    forall i :: 0 <= i < |s| ==> s[i] in Whitespace
  }

  lemma {:induction false} TrimLeftDropped(pad: string, rest: string, drop: set<char>)
    requires forall i :: 0 <= i < |pad| ==> pad[i] in drop
    ensures TrimLeft(pad + rest, drop) == TrimLeft(rest, drop)
    decreases |pad|
  {
    if pad != [] {
      assert (pad + rest)[0] == pad[0];
      assert (pad + rest)[1..] == pad[1..] + rest;
      TrimLeftDropped(pad[1..], rest, drop);
    } else {
      assert pad + rest == rest;
    }
  }

  /** The leading token of `k + rest` is `k` when `rest` opens with whitespace. */
  lemma TokenEnds(k: string, rest: string)
    requires forall i :: 0 <= i < |k| ==> k[i] !in Whitespace
    requires rest != [] && rest[0] in Whitespace
    ensures FirstIn(k + rest, Whitespace) == |k|
  {
    FirstInAppend(k, rest, Whitespace);
  }

  lemma ValueAfterSpace(v: string)
    requires '\n' !in v && (v == [] || v[0] !in Whitespace)
    ensures TrimLeft(" " + v, Whitespace) == v
    ensures UpToNewline(v) == v
  {
    assert (" " + v)[1..] == v;
  }

  lemma AfterColon(v: string)
    requires '\n' !in v && (v == [] || v[0] !in Whitespace)
    ensures var c := ": " + v;
      c[0] == ':' && TrimLeft(c, Whitespace) == c && UpToNewline(TrimLeft(c[1..], Whitespace)) == v
  {
    assert (": " + v)[1..] == " " + v;
    ValueAfterSpace(v);
  }

  /** Whitespace between key and colon: `\S+` stops at the padding. */
  lemma MatchPadded(k: string, pad: string, v: string)
    requires PlainKey(k) && pad != [] && AllWhitespace(pad)
    requires '\n' !in v && (v == [] || v[0] !in Whitespace)
    ensures MatchKeyValue(k + pad + ": " + v) == Some((k, v))
  {
    var colon := ": " + v;
    var rest := pad + colon;
    var line := k + rest;
    assert k + pad + ": " + v == line;
    assert line != [] && line[0] !in Whitespace by {
      assert line[0] == k[0];
    }
    assert FirstIn(line, Whitespace) == |k| by {
      assert rest[0] == pad[0];
      TokenEnds(k, rest);
    }
    AfterColon(v);
    assert TrimLeft(line[|k|..], Whitespace) == colon by {
      assert line[|k|..] == rest;
      TrimLeftDropped(pad, colon, Whitespace);
    }
    assert line[..|k|] == k;
  }

  /** The pieces of an unpadded line: the token runs up to the space, after it
      comes the value, and the last colon of the token closes the key. */
  lemma TightPieces(k: string, v: string)
    requires PlainKey(k)
    requires '\n' !in v && (v == [] || (v[0] !in Whitespace && v[0] != ':'))
    ensures var line := k + ": " + v;
      && line != [] && line[0] !in Whitespace
      && FirstIn(line, Whitespace) == |k| + 1
      && TrimLeft(line[|k| + 1..], Whitespace) == v
      && LastColon(line, |k| + 1) == Some(|k|)
      && line[..|k|] == k
  {
    ColonLine(k, v);
    ColonToken(v);
    FirstInAppend(k, ": " + v, Whitespace);
    ValueAfterSpace(v);
  }

  /** Where the pieces of `k + ": " + v` sit. */
  lemma ColonLine(k: string, v: string)
    ensures var line := k + ": " + v;
      && line == k + (": " + v)
      && (": " + v)[0] == ':' && (": " + v)[1..] == " " + v
      && line[|k|] == ':' && line[|k| + 1..] == " " + v && line[..|k|] == k
      && (k != [] ==> line[0] == k[0])
  {
  }

  /** `\S+` over ": " + v takes the colon alone. */
  lemma ColonToken(v: string)
    ensures FirstIn(": " + v, Whitespace) == 1
  {
    assert (": " + v)[1..] == " " + v;
  }

  /** No padding: `\S+` first takes the colon too and then backtracks to it. */
  lemma MatchTight(k: string, v: string)
    requires PlainKey(k)
    requires '\n' !in v && (v == [] || (v[0] !in Whitespace && v[0] != ':'))
    ensures MatchKeyValue(k + ": " + v) == Some((k, v))
  {
    TightPieces(k, v);
    ValueAfterSpace(v);
  }

  /** A line written as key, optional padding, ": " and value reads back as that
      key and that value, quotes and all. With no padding a value starting with
      ':' would be read differently, since the token then runs up to the space. */
  lemma MatchRoundTrip(k: string, pad: string, v: string)
    requires PlainKey(k) && AllWhitespace(pad)
    requires '\n' !in v && (v == [] || v[0] !in Whitespace)
    requires pad != [] || v == [] || v[0] != ':'
    ensures MatchKeyValue(k + pad + ": " + v) == Some((k, v))
  {
    if pad != [] {
      MatchPadded(k, pad, v);
    } else {
      assert k + pad + ": " + v == k + ": " + v;
      MatchTight(k, v);
    }
  }

  /** A line without ':' never matches, so it adds nothing to the record. */
  lemma MatchNeedsColon(line: string)
    requires ':' !in line
    ensures MatchKeyValue(line) == None
  {
    if line != [] && line[0] !in Whitespace {
      var t := FirstIn(line, Whitespace);
      var after := TrimLeft(line[t..], Whitespace);
      if t < |line| && after != [] {
        assert after[0] in line[t..];
      }
    }
  }

  // ---------------------------------------------------------------- parse_ovs_list

  predicate AllBlank(lines: seq<string>) {
    forall i :: 0 <= i < |lines| ==> Classify(lines[i]).Blank?
  }

  predicate NoBlank(lines: seq<string>) {
    forall i :: 0 <= i < |lines| ==> !Classify(lines[i]).Blank?
  }

  predicate NonEmptyRecords(bs: seq<Record>) {
    forall i :: 0 <= i < |bs| ==> bs[i] != map[]
  }

  lemma {:induction false} FoldKeepsNonEmpty(lines: seq<string>)
    ensures NonEmptyRecords(Fold(ParseStep, Start, lines).blocks)
  {
    if lines != [] {
      FoldKeepsNonEmpty(lines[..|lines| - 1]);
    }
  }

  /** No record `parse_ovs_list` returns is empty. */
  lemma ParsedNonEmpty(raw: string)
    ensures NonEmptyRecords(ParsedRecords(raw))
  {
    FoldKeepsNonEmpty(SplitLines(raw));
  }

  lemma {:induction false} FoldAllBlank(lines: seq<string>)
    requires AllBlank(lines)
    ensures Fold(ParseStep, Start, lines) == Start
  {
    if lines != [] {
      FoldAllBlank(lines[..|lines| - 1]);
    }
  }

  /** Empty or whitespace-only text has no records. */
  lemma ParseBlankText(raw: string)
    requires AllBlank(SplitLines(raw))
    ensures ParsedRecords(raw) == []
  {
    FoldAllBlank(SplitLines(raw));
  }

  lemma ParseEmptyText()
    ensures ParsedRecords("") == []
  {
    assert SplitLines("") == [];
  }

  /** Folding from a state with finished records only adds records after them. */
  lemma {:induction false} FoldFromRecords(bs: seq<Record>, lines: seq<string>)
    ensures var f := Fold(ParseStep, Start, lines);
      Fold(ParseStep, ParseState(bs, map[]), lines) == ParseState(bs + f.blocks, f.current)
  {
    if lines != [] {
      var init := lines[..|lines| - 1];
      FoldFromRecords(bs, init);
      var f := Fold(ParseStep, Start, init);
      if Classify(lines[|lines| - 1]).Blank? && f.current != map[] {
        AppendAssoc(bs, f.blocks, [f.current]);
      }
    } else {
      assert bs + [] == bs;
    }
  }

  /** A blank line closes the record being filled. */
  lemma FoldBlankStep(a: seq<string>, blank: string)
    requires Classify(blank).Blank?
    ensures Fold(ParseStep, Start, a + [blank]) == ParseState(ParseLines(a), map[])
  {
    assert (a + [blank])[..|a|] == a;
    var sa := Fold(ParseStep, Start, a);
    assert Fold(ParseStep, Start, a + [blank]) == ApplyLine(sa, Blank);
  }

  /** Text split at a blank line parses to the records of the part before followed
      by those of the part after. */
  lemma ParseSeparated(a: seq<string>, blank: string, b: seq<string>)
    requires Classify(blank).Blank?
    ensures ParseLines(a + [blank] + b) == ParseLines(a) + ParseLines(b)
  {
    FoldAppend(ParseStep, Start, a + [blank], b);
    FoldBlankStep(a, blank);
    FoldFromRecords(ParseLines(a), b);
    var f := Fold(ParseStep, Start, b);
    if f.current != map[] {
      AppendAssoc(ParseLines(a), f.blocks, [f.current]);
    }
  }

  /** A step that leaves the state alone after `x` makes `y` redundant after `x`. */
  lemma FoldSkip<S, X>(step: (S, X) -> S, seed: S, a: seq<X>, x: X, y: X, c: seq<X>)
    requires var s := step(Fold(step, seed, a), x); step(s, y) == s
    ensures Fold(step, seed, a + [x, y] + c) == Fold(step, seed, a + [x] + c)
  {
    FoldAppend(step, seed, a + [x, y], c);
    FoldAppend(step, seed, a + [x], c);
    assert (a + [x, y])[..|a| + 1] == a + [x];
  }

  /** A run of blank lines separates records exactly as one blank line does. */
  lemma BlankRunCollapses(a: seq<string>, b1: string, b2: string, c: seq<string>)
    requires Classify(b1).Blank? && Classify(b2).Blank?
    ensures ParseLines(a + [b1, b2] + c) == ParseLines(a + [b1] + c)
  {
    BlankRunFold(a, b1, b2, c);
  }

  lemma BlankRunFold(a: seq<string>, b1: string, b2: string, c: seq<string>)
    requires Classify(b1).Blank? && Classify(b2).Blank?
    ensures Fold(ParseStep, Start, a + [b1, b2] + c) == Fold(ParseStep, Start, a + [b1] + c)
  {
    BlankIdempotent(Fold(ParseStep, Start, a), b1, b2);
    FoldSkip(ParseStep, Start, a, b1, b2, c);
  }

  /** A second blank line finds no record open and leaves the state alone. */
  lemma BlankIdempotent(st: ParseState, b1: string, b2: string)
    requires Classify(b1).Blank? && Classify(b2).Blank?
    ensures ParseStep(ParseStep(st, b1), b2) == ParseStep(st, b1)
  {
  }

  /** The kinds of a sequence of lines. */
  function Kinds(lines: seq<string>): (ks: seq<LineKind>)
    ensures |ks| == |lines| && forall i :: 0 <= i < |lines| ==> ks[i] == Classify(lines[i])
  {
    seq(|lines|, i requires 0 <= i < |lines| => Classify(lines[i]))
  }

  /** The record the matched pairs among `kinds` make, later keys overwriting. */
  function RecordOf(kinds: seq<LineKind>): Record {
    if kinds == [] then map[]
    else
      var r := RecordOf(kinds[..|kinds| - 1]);
      match kinds[|kinds| - 1]
      case Pair(k, v) => r[k := v]
      case _ => r
  }

  lemma {:induction false} FoldBlock(lines: seq<string>)
    requires NoBlank(lines)
    ensures Fold(ParseStep, Start, lines) == ParseState([], RecordOf(Kinds(lines)))
  {
    if lines != [] {
      var init := lines[..|lines| - 1];
      FoldBlock(init);
      assert Kinds(lines)[..|lines| - 1] == Kinds(init);
    }
  }

  /** Lines without a blank one form at most one record: the pairs they match. */
  lemma ParseOneBlock(lines: seq<string>)
    requires NoBlank(lines)
    ensures var r := RecordOf(Kinds(lines));
      ParseLines(lines) == if r == map[] then [] else [r]
  {
    FoldBlock(lines);
  }

  /** Entry `i` is a matched pair with key `k`. */
  predicate KeyAt(kinds: seq<LineKind>, i: int, k: string)
    requires 0 <= i < |kinds|
  {
    kinds[i].Pair? && kinds[i].key == k
  }

  /** A record has exactly the keys its lines match. */
  lemma {:induction false} RecordKeys(kinds: seq<LineKind>, k: string)
    ensures k in RecordOf(kinds) <==> exists i :: 0 <= i < |kinds| && KeyAt(kinds, i, k)
  {
    if kinds != [] {
      var n := |kinds| - 1;
      var init := kinds[..n];
      RecordKeys(init, k);
      if KeyAt(kinds, n, k) {
        assert k in RecordOf(kinds);
      } else {
        assert k in RecordOf(kinds) <==> k in RecordOf(init);
        if exists i :: 0 <= i < |init| && KeyAt(init, i, k) {
          var i :| 0 <= i < |init| && KeyAt(init, i, k);
          assert KeyAt(kinds, i, k);
        }
        if exists i :: 0 <= i < |kinds| && KeyAt(kinds, i, k) {
          var i :| 0 <= i < |kinds| && KeyAt(kinds, i, k);
          assert KeyAt(init, i, k);
        }
      }
    }
  }

  /** A key matched on several lines keeps the value of the last of them. */
  lemma {:induction false} RecordLastWins(kinds: seq<LineKind>, i: int, k: string)
    requires 0 <= i < |kinds| && KeyAt(kinds, i, k)
    requires forall j :: i < j < |kinds| ==> !KeyAt(kinds, j, k)
    ensures k in RecordOf(kinds) && RecordOf(kinds)[k] == kinds[i].value
  {
    var init := kinds[..|kinds| - 1];
    if i < |init| {
      forall j | i < j < |init|
        ensures !KeyAt(init, j, k)
      {
        assert !KeyAt(kinds, j, k);
      }
      RecordLastWins(init, i, k);
      assert !KeyAt(kinds, |kinds| - 1, k);
    }
  }

  // ---------------------------------------------------------------- switch identity

  /** No space, and no whitespace at either end. */
  predicate Tidy(s: string) {
    ' ' !in s && (s == [] || (s[0] !in Whitespace && s[|s| - 1] !in Whitespace))
  }

  /** Making spaces '_' in stripped text leaves it tidy. */
  lemma SpacesMadeUnderscores(t: string)
    requires t == [] || (t[0] !in Whitespace && t[|t| - 1] !in Whitespace)
    ensures Tidy(ReplaceAll(t, " ", "_"))
  {
    ReplaceCharAt(t, ' ', '_');
  }

  lemma StrippedEnds(s: string)
    ensures var r := Strip(s); r == [] || (r[0] !in Whitespace && r[|r| - 1] !in Whitespace)
  {
    var r := Trim(s, Whitespace);
    assert r != [] ==> r[0] !in Whitespace && r[|r| - 1] !in Whitespace;
  }

  lemma RequestedTidy(requested: Option<string>)
    ensures Tidy(RequestedName(requested))
  {
    StrippedEnds(requested.GetOr("default_switch"));
    SpacesMadeUnderscores(Strip(requested.GetOr("default_switch")));
  }

  /** A tidy name without '.' asks for itself again. */
  lemma TidyRequested(name: string)
    requires Tidy(name)
    ensures RequestedName(Some(name)) == name
  {
    TrimNoop(name, Whitespace);
    ReplaceAbsent(name, ' ', '_');
  }

  /** An address `s` becomes `switch_` followed by `s` with every '.' made '_'. */
  lemma AddressName(s: string)
    requires '.' in s
    ensures var id := SwitchIdentityOf(s);
      && id.host == Some(s) && SwitchIp(id) == s
      && |id.name| == 7 + |s| && id.name[..7] == "switch_"
      && (forall i :: 0 <= i < |s| ==> id.name[7 + i] == if s[i] == '.' then '_' else s[i])
      && '.' !in id.name
  {
    ReplaceCharAt(s, '.', '_');
    var r := ReplaceAll(s, ".", "_");
    var name := "switch_" + r;
    forall i | 0 <= i < |name|
      ensures name[i] != '.'
    {
      if i >= 7 {
        assert name[i] == r[i - 7];
      }
    }
  }

  /** A name holding '.' is the switch's address: commands go there and the
      snapshot is filed as `switch_` followed by the address with every '.' made
      '_'. */
  lemma SwitchAddress(requested: Option<string>)
    requires '.' in RequestedName(requested)
    ensures var s, id := RequestedName(requested), SwitchIdentity(requested);
      && id.host == Some(s) && SwitchIp(id) == s && ' ' !in s
      && |id.name| == 7 + |s| && id.name[..7] == "switch_"
      && (forall i :: 0 <= i < |s| ==> id.name[7 + i] == if s[i] == '.' then '_' else s[i])
  {
    RequestedTidy(requested);
    AddressName(RequestedName(requested));
  }

  /** A name without '.' is kept as given, with no spaces, on the built-in host. */
  lemma SwitchNameOnly(requested: Option<string>)
    requires '.' !in RequestedName(requested)
    ensures var id := SwitchIdentity(requested);
      id == SwitchId(RequestedName(requested), None) && SwitchIp(id) == "localhost" && ' ' !in id.name
  {
    RequestedTidy(requested);
  }

  lemma DefaultTidy()
    ensures Tidy("default_switch") && '.' !in "default_switch"
  {
  }

  /** With no `switch_name` the snapshot is `default_switch` on the built-in host. */
  lemma DefaultSwitch()
    ensures SwitchIdentity(None) == SwitchId("default_switch", None)
  {
    DefaultRequested();
    DefaultTidy();
  }

  lemma DefaultRequested()
    ensures RequestedName(None) == "default_switch"
  {
    DefaultTidy();
    TidyRequested("default_switch");
  }

  /** `switch_` and an address with dots made '_' is tidy. */
  lemma AddressNameTidy(s: string)
    requires Tidy(s) && '.' in s
    ensures Tidy(SwitchIdentityOf(s).name)
  {
    ReplaceCharAt(s, '.', '_');
    var r := ReplaceAll(s, ".", "_");
    var name := "switch_" + r;
    forall i | 0 <= i < |name|
      ensures name[i] != ' '
    {
      if i >= 7 {
        assert name[i] == r[i - 7];
      }
    }
    assert name[0] == 's';
    assert name[|name| - 1] == r[|s| - 1];
  }

  /** The name a snapshot is filed under is tidy and holds no '.'. */
  lemma FiledNameTidy(s: string)
    requires Tidy(s)
    ensures var name := SwitchIdentityOf(s).name; Tidy(name) && '.' !in name
  {
    if s != "" && '.' in s {
      AddressName(s);
      AddressNameTidy(s);
    }
  }

  /** The name a snapshot is filed under is a fixed point: requested again it
      stays the same and addresses the built-in host. */
  lemma SwitchNameStable(requested: Option<string>)
    ensures var name := SwitchIdentity(requested).name;
      SwitchIdentity(Some(name)) == SwitchId(name, None)
  {
    RequestedTidy(requested);
    var name := SwitchIdentity(requested).name;
    FiledNameTidy(RequestedName(requested));
    TidyRequested(name);
  }

  // ---------------------------------------------------------------- lookups by name

  /** The entry a dict kept as pairs holds for `k`. */
  function Lookup(entries: seq<(string, Record)>, k: string): Option<Record> {
    if entries == [] then None
    else if entries[0].0 == k then Some(entries[0].1)
    else Lookup(entries[1..], k)
  }

  /** The last record whose `name` is `k`. */
  function LastNamed(recs: seq<Record>, k: string): Option<Record> {
    if recs == [] then None
    else
      var r := recs[|recs| - 1];
      if "name" in r && r["name"] == k then Some(r) else LastNamed(recs[..|recs| - 1], k)
  }

  lemma {:induction false} UpsertKeys(entries: seq<(string, Record)>, k: string, v: Record)
    ensures Keys(Upsert(entries, k, v)) == if k in Keys(entries) then Keys(entries) else Keys(entries) + [k]
  {
    if entries != [] {
      var e, rest := entries[0], entries[1..];
      assert entries == [e] + rest;
      KeysCons(e, rest);
      if e.0 != k {
        UpsertKeys(rest, k, v);
        KeysCons(e, Upsert(rest, k, v));
      } else {
        KeysCons((k, v), rest);
      }
    }
  }

  lemma {:induction false} UpsertLookup(entries: seq<(string, Record)>, k: string, v: Record, q: string)
    ensures Lookup(Upsert(entries, k, v), q) == if q == k then Some(v) else Lookup(entries, q)
  {
    if entries != [] && entries[0].0 != k {
      UpsertLookup(entries[1..], k, v, q);
      assert Upsert(entries, k, v)[1..] == Upsert(entries[1..], k, v);
    }
  }

  /** The lookup's keys are the names in order of first appearance, each once. */
  lemma {:induction false} ByNameKeys(recs: seq<Record>)
    ensures Keys(ByName(recs)) == Dedup(Names(recs))
  {
    if recs != [] {
      var init, r := recs[..|recs| - 1], recs[|recs| - 1];
      ByNameKeys(init);
      if "name" in r {
        UpsertKeys(ByName(init), r["name"], r);
        assert Names(recs) == Names(init) + [r["name"]];
        assert Names(recs)[..|Names(recs)| - 1] == Names(init);
      } else {
        assert Names(recs) == Names(init);
      }
    }
  }

  /** Each name maps to the last record carrying it. */
  lemma {:induction false} ByNameLookup(recs: seq<Record>, k: string)
    ensures Lookup(ByName(recs), k) == LastNamed(recs, k)
  {
    if recs != [] {
      var init, r := recs[..|recs| - 1], recs[|recs| - 1];
      ByNameLookup(init, k);
      if "name" in r {
        UpsertLookup(ByName(init), r["name"], r, k);
      }
    }
  }

  // ---------------------------------------------------------------- the snapshot document

  /** One entry per bridge record, in order, named and identified from that record;
      every bridge receives the very same port list, with one entry per distinct
      port name in order of first appearance, and no port lists interfaces. */
  lemma SwitchDocShape(id: SwitchId, bridges: seq<Record>, ports: seq<Record>)
    ensures var doc := SwitchDocOf(id, bridges, ports);
      && doc.switchName == id.name && doc.switchIp == SwitchIp(id)
      && |doc.bridges| == |bridges|
      && (forall i :: 0 <= i < |bridges| ==>
            doc.bridges[i].name == GetUnquoted(bridges[i], "name")
            && doc.bridges[i].datapathId == GetUnquoted(bridges[i], "datapath_id"))
      && (forall i, j :: 0 <= i < |bridges| && 0 <= j < |bridges| ==> doc.bridges[i].ports == doc.bridges[j].ports)
      && (forall i :: 0 <= i < |bridges| ==> |doc.bridges[i].ports| == |Dedup(Names(ports))|)
      && (forall i, p :: 0 <= i < |bridges| && p in doc.bridges[i].ports ==> p.interfaces == [])
  {
    ByNameKeys(ports);
  }

  /** The port entry for name `k`: quotes gone, with the tag of the last record
      of that name. */
  lemma PortEntryOf(ports: seq<Record>, j: int)
    requires 0 <= j < |ByName(ports)|
    ensures var k := ByName(ports)[j].0;
      && LastNamed(ports, k).Some?
      && PortDocs(ByName(ports))[j] == PortDoc(StripQuotes(k), GetUnquoted(LastNamed(ports, k).value, "tag"), [])
  {
    var entries := ByName(ports);
    var k := entries[j].0;
    ByNameLookup(ports, k);
    ByNameKeys(ports);
    DedupFacts(Names(ports));
    LookupFirst(entries, j);
  }

  lemma {:induction false} LookupFirst(entries: seq<(string, Record)>, j: int)
    requires 0 <= j < |entries|
    requires forall a, b :: 0 <= a < b < |Keys(entries)| ==> Keys(entries)[a] != Keys(entries)[b]
    ensures Lookup(entries, entries[j].0) == Some(entries[j].1)
  {
    if j > 0 {
      assert Keys(entries)[0] != Keys(entries)[j];
      var rest := entries[1..];
      forall a, b | 0 <= a < b < |Keys(rest)|
        ensures Keys(rest)[a] != Keys(rest)[b]
      {
        assert Keys(rest)[a] == Keys(entries)[a + 1];
        assert Keys(rest)[b] == Keys(entries)[b + 1];
      }
      LookupFirst(rest, j - 1);
    }
  }

  // ---------------------------------------------------------------- the route

  /** Without a password nothing is sent; with one, the four listings go in
      order, all to the derived host with the same password. */
  lemma ShowCallsShape(req: ShowRequest)
    ensures !Truthy(req.password) ==> ShowCalls(req) == []
    ensures Truthy(req.password) ==>
      forall k :: 0 <= k < |ShowCalls(req)| ==>
        ShowCalls(req)[k] == Call(ShowCommands[k], SwitchIdentity(req.switchName).host, req.password.value)
  {
  }

  /** A reported output is already clean, and the error is reported exactly when
      the reply's stderr is not empty. */
  lemma ResultClean(cmd: string, reply: Reply)
    ensures var r := ResultOf(cmd, reply);
      r.0 == cmd && Cleaned(r.1.output) == r.1.output && (r.1.error.None? <==> reply.err == "")
  {
    CleanIdempotent(reply.out);
  }

  /** A shown response lists the four commands in order, each with a clean output
      and with an error exactly when that command's reply had one. */
  lemma ShownResults(req: ShowRequest, replies: seq<Reply>, k: int)
    requires |replies| == |ShowCalls(req)| && Truthy(req.password) && 0 <= k < 4
    ensures var r := ShowResponseOf(req, replies).results[k];
      r.0 == ShowCommands[k] && Cleaned(r.1.output) == r.1.output && (r.1.error.None? <==> replies[k].err == "")
  {
    MapPairsAt(ResultOf, ShowCommands, replies, k);
    ResultClean(ShowCommands[k], replies[k]);
  }
}
