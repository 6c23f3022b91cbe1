/** StatsD metric packets (aggregator.py): one name and several datums, joined by ':'.
    Tags hold ':' too, so splitting on it breaks them and a loop mends them. */
module MetricPackets {
  import opened Wrappers
  import opened Strings
  import opened Text
  import StableSort

  /** `int` or else `float` on a value, and `float` on a sample rate. */
  datatype Numbers = Numbers(value: string -> Option<real>, rate: string -> Option<real>)

  datatype Value = Number(number: real) | Raw(text: string)

  datatype Reading = Reading(name: string, value: Value, mtype: string, tags: Option<seq<string>>, rate: real)

  /** The last is a ValueError that the parser lets escape. */
  datatype Error = Unparseable | NotANumber | BadRate

  datatype Result<T> = Ok(value: T) | Err(error: Error)

  // ---- mending the groups that ':' broke ----

  /** A token without '|' belongs to the datum before it. */
  function Mend(tokens: seq<string>): seq<string> {
    if |tokens| < 2 then tokens else Glue(Mend(tokens[..|tokens| - 1]), tokens[|tokens| - 1])
  }

  function Glue(done: seq<string>, token: string): seq<string> {
    if '|' in token || done == [] then done + [token]
    else done[..|done| - 1] + [done[|done| - 1] + [':'] + token]
  }

  method FixTagGroups(tokens: seq<string>) returns (data: seq<string>)
    requires tokens != []
    ensures data == Mend(tokens)
  {
    data := [];
    var partial := None;
    for i := 0 to |tokens|
      invariant i == 0 ==> partial.None? && data == []
      invariant i > 0 ==> partial.Some? && data + [partial.value] == Mend(tokens[..i])
    {
      var token := tokens[i];
      assert tokens[..i + 1][..i] == tokens[..i];
      if partial.None? {
        partial := Some(token);
      } else if '|' !in token {
        partial := Some(partial.value + [':'] + token);
      } else {
        data := data + [partial.value];
        partial := Some(token);
      }
    }
    assert tokens[..|tokens|] == tokens;
    data := data + [partial.value];
  }

  /** The tokens of all the datums. */
  function Tokens(data: seq<string>): seq<string> {
    if data == [] then [] else Tokens(data[..|data| - 1]) + Split(data[|data| - 1], ':')
  }

  predicate Plain(tokens: seq<string>, from: nat) {
    forall i :: from <= i < |tokens| ==> '|' !in tokens[i]
  }

  /** No '|' after a ':', and, but for the first datum, one before. */
  ghost predicate Mendable(data: seq<string>) {
    forall i :: 0 <= i < |data| ==>
      Plain(Split(data[i], ':'), 1) && (i > 0 ==> '|' in Split(data[i], ':')[0])
  }

  lemma GlueKeepsText(done: seq<string>, token: string)
    requires done != []
    ensures Join(Glue(done, token), ':') == Join(done, ':') + [':'] + token
  {
    var rest, last := done[..|done| - 1], done[|done| - 1];
    assert done == rest + [last];
    if '|' in token {
      JoinAppend(done, token, ':');
    } else if rest != [] {
      JoinAppend(rest, last, ':');
      JoinAppend(rest, last + [':'] + token, ':');
      assert Join(rest, ':') + [':'] + (last + [':'] + token) == Join(rest, ':') + [':'] + last + [':'] + token;
    }
  }

  /** Whatever the packet, mending keeps its text. */
  lemma {:induction false} MendKeepsText(tokens: seq<string>)
    requires tokens != []
    ensures Mend(tokens) != [] && Join(Mend(tokens), ':') == Join(tokens, ':')
  {
    if |tokens| > 1 {
      var front, token := tokens[..|tokens| - 1], tokens[|tokens| - 1];
      MendKeepsText(front);
      GlueKeepsText(Mend(front), token);
      JoinAppend(front, token, ':');
      assert tokens == front + [token];
    }
  }

  lemma SplitMore(s: string, token: string)
    requires ':' !in token
    ensures Split(s + [':'] + token, ':') == Split(s, ':') + [token]
  {
    SplitAppend(s, token, ':');
    SplitPlain(token, ':');
  }

  lemma GlueMendable(done: seq<string>, token: string)
    requires done != [] && Mendable(done) && ':' !in token
    ensures Mendable(Glue(done, token))
  {
    var data, n := Glue(done, token), |done| - 1;
    SplitPlain(token, ':');
    SplitMore(done[n], token);
    assert Plain(Split(done[n], ':'), 1) && (n > 0 ==> '|' in Split(done[n], ':')[0]);
    forall i | 0 <= i < |data| ensures Plain(Split(data[i], ':'), 1) && (i > 0 ==> '|' in Split(data[i], ':')[0]) {
      if i < n {
        assert data[i] == done[i];
      }
    }
  }

  /** What mending makes never needs mending again. */
  lemma {:induction false} MendedIsMendable(tokens: seq<string>)
    requires forall i :: 0 <= i < |tokens| ==> ':' !in tokens[i]
    ensures Mendable(Mend(tokens))
  {
    if |tokens| == 1 {
      SplitPlain(tokens[0], ':');
    } else if |tokens| > 1 {
      var front := tokens[..|tokens| - 1];
      MendedIsMendable(front);
      MendKeepsText(front);
      GlueMendable(Mend(front), tokens[|tokens| - 1]);
    }
  }

  /** Adding the tokens of one more datum adds that datum. */
  lemma {:induction false} MendOneMore(tokens: seq<string>, more: seq<string>)
    requires tokens != [] && more != [] && '|' in more[0] && Plain(more, 1)
    ensures Mend(tokens + more) == Mend(tokens) + [Join(more, ':')]
  {
    MendKeepsText(tokens);
    var front, token := more[..|more| - 1], more[|more| - 1];
    assert (tokens + more)[..|tokens + more| - 1] == tokens + front;
    if front == [] {
      assert tokens + front == tokens;
    } else {
      MendOneMore(tokens, front);
      JoinAppend(front, token, ':');
      assert more == front + [token];
    }
  }

  lemma {:induction false} MendFirst(tokens: seq<string>)
    requires tokens != [] && Plain(tokens, 1)
    ensures Mend(tokens) == [Join(tokens, ':')]
  {
    if |tokens| > 1 {
      var front, token := tokens[..|tokens| - 1], tokens[|tokens| - 1];
      MendFirst(front);
      JoinAppend(front, token, ':');
      assert tokens == front + [token] && '|' !in token;
      assert Glue([Join(front, ':')], token) == [Join(front, ':') + [':'] + token];
    }
  }

  lemma MendSnoc(tokens: seq<string>, datum: string)
    requires Plain(Split(datum, ':'), 1) && (tokens != [] ==> '|' in Split(datum, ':')[0])
    ensures Mend(tokens + Split(datum, ':')) == (if tokens == [] then [] else Mend(tokens)) + [datum]
  {
    JoinSplit(datum, ':');
    if tokens == [] {
      MendFirst(Split(datum, ':'));
      assert tokens + Split(datum, ':') == Split(datum, ':');
    } else {
      MendOneMore(tokens, Split(datum, ':'));
    }
  }

  lemma MendNext(front: seq<string>, last: string)
    requires front != [] ==> Tokens(front) != [] && Mend(Tokens(front)) == front && '|' in Split(last, ':')[0]
    requires Plain(Split(last, ':'), 1)
    ensures Mend(Tokens(front + [last])) == front + [last]
  {
    MendSnoc(Tokens(front), last);
    assert (front + [last])[..|front|] == front;
  }

  lemma {:induction false} MendTokens(data: seq<string>)
    requires data != [] && Mendable(data)
    ensures Mend(Tokens(data)) == data
  {
    var front, last := data[..|data| - 1], data[|data| - 1];
    MendableLast(data);
    assert Plain(Split(last, ':'), 1) && (front != [] ==> '|' in Split(last, ':')[0]) by {
      MendableLast(data);
    }
    assert front != [] ==> Tokens(front) != [] && Mend(Tokens(front)) == front by {
      if front != [] {
        MendableFront(data);
        MendTokens(front);
        TokensNotEmpty(front);
      }
    }
    MendNext(front, last);
    assert data == front + [last];
  }

  lemma MendableLast(data: seq<string>)
    requires data != [] && Mendable(data)
    ensures var tokens := Split(data[|data| - 1], ':'); Plain(tokens, 1) && (|data| > 1 ==> '|' in tokens[0])
  {
  }

  lemma TokensNotEmpty(data: seq<string>)
    requires data != []
    ensures Tokens(data) != []
  {
  }

  lemma MendableFront(data: seq<string>)
    requires data != [] && Mendable(data)
    ensures Mendable(data[..|data| - 1])
  {
  }

  lemma {:induction false} TokensOfJoin(data: seq<string>)
    requires data != []
    ensures Tokens(data) == Split(Join(data, ':'), ':')
  {
    var front, last := data[..|data| - 1], data[|data| - 1];
    assert data == front + [last];
    if front != [] {
      TokensOfJoin(front);
      JoinAppend(front, last, ':');
      SplitAppend(Join(front, ':'), last, ':');
    }
  }

  /** Splitting and mending gives the datums back exactly when each has no '|' after a
      ':' and each but the first has one before. */
  lemma MendsExactly(data: seq<string>)
    requires data != []
    ensures Mend(Split(Join(data, ':'), ':')) == data <==> Mendable(data)
  {
    var tokens := Split(Join(data, ':'), ':');
    TokensOfJoin(data);
    if Mendable(data) {
      MendTokens(data);
    }
    if Mend(tokens) == data {
      forall i | 0 <= i < |tokens| ensures ':' !in tokens[i] {
        SplitParts(Join(data, ':'), ':', i);
      }
      MendedIsMendable(tokens);
    }
  }

  // ---- reading the datums ----

  datatype Meta = Meta(tags: Option<seq<string>>, rate: real)

  function Clamp(rate: real): real {
    if rate < 0.0 || rate > 1.0 then 1.0 else rate
  }

  /** The optional pieces; an empty one ends them, an unknown one is skipped. */
  function ReadMeta(n: Numbers, pieces: seq<string>, meta: Meta): Result<Meta> {
    if pieces == [] || pieces[0] == "" then Ok(meta)
    else if pieces[0][0] == '@' then
      var rate := n.rate(pieces[0][1..]);
      if rate.None? then Err(BadRate) else ReadMeta(n, pieces[1..], meta.(rate := Clamp(rate.value)))
    else if pieces[0][0] == '#' then
      ReadMeta(n, pieces[1..], meta.(tags := Some(Sorted(Split(pieces[0][1..], ',')))))
    else ReadMeta(n, pieces[1..], meta)
  }

  function ReadValue(n: Numbers, text: string, mtype: string): Result<Value> {
    if mtype == "s" then Ok(Raw(text))
    else
      var number := n.value(text);
      if number.None? then Err(NotANumber) else Ok(Number(number.value))
  }

  /** One datum; those of type "d" are ignored. */
  function Read(n: Numbers, name: string, datum: string): Result<Option<Reading>> {
    var parts := Split(datum, '|');
    if |parts| < 2 then Err(Unparseable)
    else if parts[1] == "d" then Ok(None)
    else
      match ReadValue(n, parts[0], parts[1])
      case Err(e) => Err(e)
      case Ok(value) =>
        match ReadMeta(n, parts[2..], Meta(None, 1.0))
        case Err(e) => Err(e)
        case Ok(meta) => Ok(Some(Reading(name, value, parts[1], meta.tags, meta.rate)))
  }

  function Kept(metric: Option<Reading>): seq<Reading> {
    if metric.Some? then [metric.value] else []
  }

  /** The metrics read so far and those of the datums left; any error is the packet's. */
  function ReadAll(n: Numbers, name: string, data: seq<string>, sofar: seq<Reading>): Result<seq<Reading>> {
    if data == [] then Ok(sofar)
    else
      match Read(n, name, data[0])
      case Err(e) => Err(e)
      case Ok(metric) => ReadAll(n, name, data[1..], sofar + Kept(metric))
  }

  function Parse(n: Numbers, packet: string): Result<seq<Reading>> {
    var cut := Cut(packet, ':');
    if |cut| != 2 then Err(Unparseable) else ReadAll(n, cut[0], Mend(Split(cut[1], ':')), [])
  }

  method ParseMetadata(n: Numbers, pieces: seq<string>) returns (r: Result<Meta>)
    ensures r == ReadMeta(n, pieces, Meta(None, 1.0))
  {
    var sampleRate, tags := 1.0, None;
    for i := 0 to |pieces|
      invariant ReadMeta(n, pieces[i..], Meta(tags, sampleRate)) == ReadMeta(n, pieces, Meta(None, 1.0))
    {
      var m := pieces[i];
      assert pieces[i..][1..] == pieces[i + 1..];
      if m == "" {
        return Ok(Meta(tags, sampleRate));
      }
      if m[0] == '@' {
        var rate := n.rate(m[1..]);
        if rate.None? {
          return Err(BadRate);
        }
        sampleRate := Clamp(rate.value);
      } else if m[0] == '#' {
        tags := Some(Sorted(Split(m[1..], ',')));
      }
    }
    r := Ok(Meta(tags, sampleRate));
  }

  method ParseMetricPacket(n: Numbers, packet: string) returns (r: Result<seq<Reading>>)
    ensures r == Parse(n, packet)
  {
    var nameAndMetadata := Cut(packet, ':');
    if |nameAndMetadata| != 2 {
      return Err(Unparseable);
    }
    var name := nameAndMetadata[0];
    var data := FixTagGroups(Split(nameAndMetadata[1], ':'));
    var parsed := [];
    for i := 0 to |data|
      invariant ReadAll(n, name, data[i..], parsed) == Parse(n, packet)
    {
      assert data[i..][1..] == data[i + 1..];
      var valueAndMetadata := Split(data[i], '|');
      if |valueAndMetadata| < 2 {
        return Err(Unparseable);
      }
      var mtype := valueAndMetadata[1];
      if mtype != "d" {
        var value := ReadValue(n, valueAndMetadata[0], mtype);
        if value.Err? {
          return Err(value.error);
        }
        var meta := ParseMetadata(n, valueAndMetadata[2..]);
        if meta.Err? {
          return Err(meta.error);
        }
        parsed := parsed + [Reading(name, value.value, mtype, meta.value.tags, meta.value.rate)];
      } else {
        assert parsed + [] == parsed;
      }
    }
    r := Ok(parsed);
  }

  // ---- which packets are refused ----

  lemma {:induction false} ReadAllFails(n: Numbers, name: string, data: seq<string>, sofar: seq<Reading>)
    ensures ReadAll(n, name, data, sofar).Err? <==> SomeRefused(n, name, data)
  {
    if data != [] && Read(n, name, data[0]).Ok? {
      var more := sofar + Kept(Read(n, name, data[0]).value);
      ReadAllFails(n, name, data[1..], more);
      if SomeRefused(n, name, data) {
        var i :| 0 <= i < |data| && Read(n, name, data[i]).Err?;
        assert data[1..][i - 1] == data[i];
      }
      forall i | 0 <= i < |data[1..]| && Read(n, name, data[1..][i]).Err? ensures Read(n, name, data[i + 1]).Err? {
        assert data[1..][i] == data[i + 1];
      }
    }
  }

  predicate SomeRefused(n: Numbers, name: string, data: seq<string>) {
    exists i :: 0 <= i < |data| && Read(n, name, data[i]).Err?
  }

  /** A packet is refused as a whole exactly when one of its datums is. */
  lemma RefusedExactly(n: Numbers, name: string, text: string)
    requires ':' !in name
    ensures var data := Mend(Split(text, ':'));
      Parse(n, name + [':'] + text).Err? <==> SomeRefused(n, name, data)
  {
    var packet, data := name + [':'] + text, Mend(Split(text, ':'));
    CutAtFirst(name, text, ':');
    assert Parse(n, packet) == ReadAll(n, name, data, []);
    ReadAllFails(n, name, Mend(Split(text, ':')), []);
  }

  /** So is one without a ':', and a datum without a '|'. */
  lemma ShortTextsRefused(n: Numbers, name: string, text: string)
    ensures ':' !in text ==> Parse(n, text) == Err(Unparseable)
    ensures '|' !in text ==> Read(n, name, text) == Err(Unparseable)
  {
    var cut := Cut(text, ':');
    if |cut| == 2 {
      CutHolds(text, ':');
    }
    if '|' !in text {
      SplitPlain(text, '|');
    }
  }

  lemma {:induction false} CutHolds(s: string, c: char)
    requires |Cut(s, c)| == 2
    ensures c in s
  {
    if s[0] != c {
      CutHolds(s[1..], c);
    }
  }

  // ---- round trip ----

  /** A datum before it is printed. */
  datatype Datum = Datum(value: string, mtype: string, rate: Option<string>, tags: Option<seq<string>>)

  predicate TagsClean(tags: seq<string>) {
    forall i :: 0 <= i < |tags| ==> '|' !in tags[i] && ',' !in tags[i]
  }

  /** No field has a '|' in it. */
  predicate NoBars(d: Datum) {
    '|' !in d.value && '|' !in d.mtype && (d.rate.Some? ==> '|' !in d.rate.value) && '|' !in TagList(d)
  }

  /** A ':' stands only in the field that is printed last. */
  predicate ColonsLast(d: Datum) {
    && ':' !in d.value
    && (d.rate.Some? || d.tags.Some? ==> ':' !in d.mtype)
    && (d.rate.Some? && d.tags.Some? ==> ':' !in d.rate.value)
  }

  ghost predicate Printable(d: Datum) {
    NoBars(d) && ColonsLast(d) && (d.tags.Some? ==> d.tags.value != [] && TagsClean(d.tags.value))
  }

  function TagList(d: Datum): string {
    if d.tags.Some? && d.tags.value != [] then Join(d.tags.value, ',') else ""
  }

  /** The field printed last, and the ones before it. */
  function LastField(d: Datum): string {
    if d.tags.Some? then "#" + TagList(d) else if d.rate.Some? then "@" + d.rate.value else d.mtype
  }

  function FirstFields(d: Datum): string {
    if d.tags.Some? then d.value + "|" + d.mtype + (if d.rate.Some? then "|@" + d.rate.value else "")
    else if d.rate.Some? then d.value + "|" + d.mtype
    else d.value
  }

  /** value|type[|@rate][|#tag,...] */
  function Print(d: Datum): string {
    FirstFields(d) + "|" + LastField(d)
  }

  function TagField(d: Datum): seq<string> {
    if d.tags.Some? then ["#" + TagList(d)] else []
  }

  function Options(d: Datum): seq<string> {
    if d.rate.Some? then ["@" + d.rate.value] + TagField(d) else TagField(d)
  }

  function Fields(d: Datum): seq<string> {
    [d.value] + ([d.mtype] + Options(d))
  }

  /** What a datum stands for, told without any text: nothing for the type "d"; the value
      as it is for sets, else a number; tags in order; the rate if it is from zero to one,
      else one. */
  function Meaning(n: Numbers, name: string, d: Datum): Result<Option<Reading>> {
    if d.mtype == "d" then Ok(None)
    else if d.mtype != "s" && n.value(d.value).None? then Err(NotANumber)
    else if d.rate.Some? && n.rate(d.rate.value).None? then Err(BadRate)
    else
      var value := if d.mtype == "s" then Raw(d.value) else Number(n.value(d.value).value);
      var rate := if d.rate.Some? && 0.0 <= n.rate(d.rate.value).value <= 1.0 then n.rate(d.rate.value).value else 1.0;
      Ok(Some(Reading(name, value, d.mtype, if d.tags.Some? then Some(Sorted(d.tags.value)) else None, rate)))
  }

  /** An empty piece after the type ends the optional ones, one of an unknown kind is
      skipped, and of several rates or tag lists the last counts. */
  lemma MetadataPieces(n: Numbers, piece: string, rest: seq<string>, meta: Meta)
    ensures ReadMeta(n, [""] + rest, meta) == Ok(meta)
    ensures piece != "" && piece[0] != '@' && piece[0] != '#' ==>
              ReadMeta(n, [piece] + rest, meta) == ReadMeta(n, rest, meta)
    ensures forall tags :: ReadMeta(n, ["#" + piece] + rest, meta.(tags := tags))
                        == ReadMeta(n, ["#" + piece] + rest, meta)
    ensures forall rate :: ReadMeta(n, ["@" + piece] + rest, meta.(rate := rate))
                        == ReadMeta(n, ["@" + piece] + rest, meta)
  {
    assert ([""] + rest)[0] == "" && ([piece] + rest)[1..] == rest;
    var tagged, rated := "#" + piece, "@" + piece;
    assert ([tagged] + rest)[1..] == rest && ([rated] + rest)[1..] == rest && tagged[1..] == rated[1..] == piece;
  }

  function Meanings(n: Numbers, name: string, ds: seq<Datum>, sofar: seq<Reading>): Result<seq<Reading>> {
    if ds == [] then Ok(sofar)
    else
      match Meaning(n, name, ds[0])
      case Err(e) => Err(e)
      case Ok(metric) => Meanings(n, name, ds[1..], sofar + Kept(metric))
  }

  function Prints(ds: seq<Datum>): (r: seq<string>)
    ensures |r| == |ds| && forall i :: 0 <= i < |ds| ==> r[i] == Print(ds[i])
  {
    if ds == [] then [] else [Print(ds[0])] + Prints(ds[1..])
  }

  lemma PrintSplits(d: Datum)
    requires NoBars(d)
    ensures Split(Print(d), '|') == Fields(d)
  {
    SplitJoin(Fields(d), '|');
    PrintJoins(d);
  }

  lemma PrintJoins(d: Datum)
    ensures Join(Fields(d), '|') == Print(d)
  {
    var g := Options(d);
    JoinFirst(d.value, [d.mtype] + g, '|');
    if g != [] {
      JoinFirst(d.mtype, g, '|');
      JoinOptions(d);
    } else {
      assert Join([d.mtype], '|') == d.mtype && [d.mtype] + g == [d.mtype];
    }
  }

  lemma JoinOptions(d: Datum)
    requires Options(d) != []
    ensures Join(Options(d), '|')
         == (if d.rate.Some? && d.tags.Some? then "@" + d.rate.value + "|" else "") + LastField(d)
  {
    var g := Options(d);
    if |g| == 2 {
      JoinFirst(g[0], [g[1]], '|');
      assert g == [g[0]] + [g[1]];
    }
  }

  lemma {:induction false} SplitHolds(s: string, c: char, x: char) returns (i: nat)
    requires x in s && x != c
    ensures i < |Split(s, c)| && x in Split(s, c)[i]
  {
    if s[0] == x {
      i := 0;
    } else {
      var j := SplitHolds(s[1..], c, x);
      i := if s[0] == c then j + 1 else j;
    }
  }

  /** Of a text with a '|' the pieces between ':' have one after the first piece exactly
      when there is a ':' before the last '|'. */
  lemma PlainExactly(before: string, last: string)
    requires '|' !in last
    ensures Plain(Split(before + "|" + last, ':'), 1) <==> ':' !in before
    ensures ':' !in before ==> '|' in Split(before + "|" + last, ':')[0]
  {
    var text := before + "|" + last;
    if ':' !in before {
      var head := before + "|";
      SplitPrefix(head, last, ':');
      assert head[|before|] == '|';
      forall i | 0 <= i < |Split(last, ':')| ensures '|' !in Split(last, ':')[i] {
        SplitParts(last, ':', i);
      }
    } else {
      var at :| 0 <= at < |before| && before[at] == ':';
      var x, y := before[..at], before[at + 1..] + "|" + last;
      assert text == x + [':'] + y && y[|before| - at - 1] == '|';
      SplitAppend(x, y, ':');
      var i := SplitHolds(y, ':', '|');
      assert '|' in Split(text, ':')[|Split(x, ':')| + i];
    }
  }

  /** Such a datum can be told from its neighbours exactly when its ':' come last. */
  lemma PrintMendable(d: Datum)
    requires NoBars(d)
    ensures Plain(Split(Print(d), ':'), 1) <==> ColonsLast(d)
    ensures ColonsLast(d) ==> '|' in Split(Print(d), ':')[0]
  {
    PlainExactly(FirstFields(d), LastField(d));
  }

  lemma ColonsLastMendable(ds: seq<Datum>)
    requires forall i :: 0 <= i < |ds| ==> NoBars(ds[i]) && ColonsLast(ds[i])
    ensures Mendable(Prints(ds))
  {
    var data := Prints(ds);
    forall i | 0 <= i < |data| ensures Plain(Split(data[i], ':'), 1) && '|' in Split(data[i], ':')[0] {
      PrintMendable(ds[i]);
    }
  }

  lemma MendableColonsLast(ds: seq<Datum>, i: nat)
    requires i < |ds| && NoBars(ds[i]) && Mendable(Prints(ds))
    ensures ColonsLast(ds[i])
  {
    var text := Prints(ds)[i];
    assert Plain(Split(text, ':'), 1) && text == Print(ds[i]);
    PrintMendable(ds[i]);
  }

  /** Of datums without '|' in their fields the printed texts survive joining, splitting
      and mending exactly when in each of them a ':' stands only in the last field. */
  lemma PrintsMendExactly(ds: seq<Datum>)
    requires ds != [] && forall i :: 0 <= i < |ds| ==> NoBars(ds[i])
    ensures Mend(Split(Join(Prints(ds), ':'), ':')) == Prints(ds) <==> forall i :: 0 <= i < |ds| ==> ColonsLast(ds[i])
  {
    MendsExactly(Prints(ds));
    if forall i :: 0 <= i < |ds| ==> ColonsLast(ds[i]) {
      ColonsLastMendable(ds);
    }
    if Mendable(Prints(ds)) {
      forall i | 0 <= i < |ds| ensures ColonsLast(ds[i]) {
        MendableColonsLast(ds, i);
      }
    }
  }

  lemma ReadPrint(n: Numbers, name: string, d: Datum)
    requires Printable(d)
    ensures Read(n, name, Print(d)) == Meaning(n, name, d)
  {
    PrintSplits(d);
    assert Fields(d)[2..] == Options(d);
    ReadOptions(n, d);
  }

  lemma ReadTags(n: Numbers, d: Datum, rate: real)
    requires Printable(d)
    ensures ReadMeta(n, TagField(d), Meta(None, rate)) ==
              Ok(Meta(if d.tags.Some? then Some(Sorted(d.tags.value)) else None, rate))
  {
    if d.tags.Some? {
      SplitJoin(d.tags.value, ',');
      var field := "#" + TagList(d);
      assert field[1..] == TagList(d) && TagField(d) == [field];
      assert |TagField(d)[1..]| == 0;
    }
  }

  lemma ReadOptions(n: Numbers, d: Datum)
    requires Printable(d)
    ensures var rate := if d.rate.Some? then n.rate(d.rate.value) else Some(1.0);
      ReadMeta(n, Options(d), Meta(None, 1.0)) ==
        if rate.None? then Err(BadRate)
        else Ok(Meta(if d.tags.Some? then Some(Sorted(d.tags.value)) else None, Clamp(rate.value)))
  {
    ReadTags(n, d, 1.0);
    if d.rate.Some? {
      var field, rate := "@" + d.rate.value, n.rate(d.rate.value);
      assert field[1..] == d.rate.value && Options(d)[1..] == TagField(d);
      if rate.Some? {
        ReadTags(n, d, Clamp(rate.value));
      }
    }
  }

  lemma {:induction false} ReadPrints(n: Numbers, name: string, ds: seq<Datum>, sofar: seq<Reading>)
    requires forall i :: 0 <= i < |ds| ==> Printable(ds[i])
    ensures ReadAll(n, name, Prints(ds), sofar) == Meanings(n, name, ds, sofar)
  {
    if ds != [] {
      ReadPrint(n, name, ds[0]);
      var metric := Meaning(n, name, ds[0]);
      if metric.Ok? {
        ReadPrints(n, name, ds[1..], sofar + Kept(metric.value));
      }
    }
  }

  /** Printing datums, joining them with ':' and parsing gives back what they mean, tags
      sorted, when in each a ':' stands only in the last field, as in tags. */
  lemma RoundTrip(n: Numbers, name: string, ds: seq<Datum>)
    requires ':' !in name && ds != [] && forall i :: 0 <= i < |ds| ==> Printable(ds[i])
    ensures Parse(n, name + [':'] + Join(Prints(ds), ':')) == Meanings(n, name, ds, [])
  {
    CutAtFirst(name, Join(Prints(ds), ':'), ':');
    PrintsMendExactly(ds);
    ReadPrints(n, name, ds, []);
  }

  // ---- a ':' in a value, as a set's may have ----

  lemma {:induction false} MendFirstDatum(tokens: seq<string>)
    requires tokens != [] && '|' !in tokens[0]
    ensures Mend(tokens) != [] && '|' !in Mend(tokens)[0]
  {
    if |tokens| > 1 {
      MendFirstDatum(tokens[..|tokens| - 1]);
    }
  }

  /** In the value of the first datum it makes the whole packet unreadable. */
  lemma ColonInFirstValueRefused(n: Numbers, name: string, before: string, rest: string)
    requires ':' !in name && ':' !in before && '|' !in before
    ensures Parse(n, name + [':'] + (before + [':'] + rest)) == Err(Unparseable)
  {
    var text := before + [':'] + rest;
    CutAtFirst(name, text, ':');
    SplitAppend(before, rest, ':');
    SplitPlain(before, ':');
    MendFirstDatum(Split(text, ':'));
    SplitPlain(Mend(Split(text, ':'))[0], '|');
  }

  /** The datum with ':' and `more` at the end of its last field. */
  function Extended(d: Datum, more: string): Datum {
    if d.tags.Some? && d.tags.value != [] then
      var tags, last := d.tags.value, |d.tags.value| - 1;
      d.(tags := Some(tags[last := tags[last] + [':'] + more]))
    else if d.rate.Some? then d.(rate := Some(d.rate.value + [':'] + more))
    else d.(mtype := d.mtype + [':'] + more)
  }

  lemma TagsExtended(d: Datum, more: string)
    requires d.tags.Some? && d.tags.value != []
    ensures Extended(d, more).tags.Some? && TagList(Extended(d, more)) == TagList(d) + [':'] + more
  {
    var tags, last := d.tags.value, |d.tags.value| - 1;
    var front, longer := tags[..last], tags[last] + [':'] + more;
    assert tags == front + [tags[last]] && tags[last := longer] == front + [longer];
    if front != [] {
      JoinAppend(front, tags[last], ',');
      JoinAppend(front, longer, ',');
      assert Join(front, ',') + [','] + longer == (Join(front, ',') + [','] + tags[last]) + [':'] + more;
    }
  }

  lemma PrintExtended(d: Datum, more: string)
    requires d.tags.Some? ==> d.tags.value != []
    ensures Print(Extended(d, more)) == Print(d) + [':'] + more
  {
    var e := Extended(d, more);
    if d.tags.Some? {
      TagsExtended(d, more);
    }
    assert FirstFields(e) == FirstFields(d) && LastField(e) == LastField(d) + [':'] + more;
    Reassociate(FirstFields(d) + "|", LastField(d), [':'] + more);
    assert LastField(e) == LastField(d) + ([':'] + more);
  }

  lemma Reassociate(x: string, y: string, z: string)
    ensures x + (y + z) == x + y + z
  {
  }

  lemma {:induction false} JoinShifts(parts: seq<string>, i: nat, before: string, after: string, c: char)
    requires i < |parts| - 1 && parts[i + 1] == before + [c] + after
    ensures Join(parts[i := parts[i] + [c] + before][i + 1 := after], c) == Join(parts, c)
  {
    var moved := parts[i := parts[i] + [c] + before][i + 1 := after];
    if i > 0 {
      JoinShifts(parts[1..], i - 1, before, after, c);
      assert moved[1..] == parts[1..][i - 1 := parts[i] + [c] + before][i := after];
    } else {
      var rest := parts[2..];
      assert parts == [parts[0]] + ([parts[1]] + rest) && moved == [moved[0]] + ([moved[1]] + rest);
      JoinFirst(parts[0], [parts[1]] + rest, c);
      JoinFirst(moved[0], [moved[1]] + rest, c);
      if rest != [] {
        JoinFirst(parts[1], rest, c);
        JoinFirst(moved[1], rest, c);
      }
    }
  }

  lemma PrintsUpdated(ds: seq<Datum>, i: nat, d: Datum)
    requires i < |ds|
    ensures Prints(ds[i := d]) == Prints(ds)[i := Print(d)]
  {
  }

  lemma PrintPrefixed(d: Datum, before: string, after: string)
    requires d.value == before + [':'] + after
    ensures Print(d) == before + [':'] + Print(d.(value := after))
  {
    var later := d.(value := after);
    assert FirstFields(d) == (before + [':']) + FirstFields(later);
    Reassociate(before + [':'], FirstFields(later), "|" + LastField(later));
    assert Print(later) == FirstFields(later) + ("|" + LastField(later));
    assert Print(d) == (before + [':'] + FirstFields(later)) + ("|" + LastField(later));
  }

  /** The datums that such ones are mistaken for. */
  function Mistaken(ds: seq<Datum>, i: nat, before: string, after: string): (r: seq<Datum>)
    requires i < |ds| - 1
    ensures |r| == |ds|
  {
    ds[i := Extended(ds[i], before)][i + 1 := ds[i + 1].(value := after)]
  }

  /** Both are printed the same. */
  lemma MistakenText(ds: seq<Datum>, i: nat, before: string, after: string)
    requires i < |ds| - 1 && ds[i + 1].value == before + [':'] + after
    requires ds[i].tags.Some? ==> ds[i].tags.value != []
    ensures Join(Prints(Mistaken(ds, i, before, after)), ':') == Join(Prints(ds), ':')
  {
    var later := ds[i + 1].(value := after);
    PrintExtended(ds[i], before);
    PrintPrefixed(ds[i + 1], before, after);
    JoinShifts(Prints(ds), i, before, Print(later), ':');
    PrintsUpdated(ds, i, Extended(ds[i], before));
    PrintsUpdated(ds[i := Extended(ds[i], before)], i + 1, later);
  }

  /** In a later value nothing is refused: the part before the ':' goes to the end of the
      datum before, and the value is only what comes after it. */
  lemma ColonInLaterValueMisread(n: Numbers, name: string, ds: seq<Datum>, i: nat, before: string, after: string)
    requires ':' !in name && i < |ds| - 1 && ds[i + 1].value == before + [':'] + after
    requires ds[i].tags.Some? ==> ds[i].tags.value != []
    requires var read := Mistaken(ds, i, before, after); forall j :: 0 <= j < |read| ==> Printable(read[j])
    ensures Parse(n, name + [':'] + Join(Prints(ds), ':')) == Meanings(n, name, Mistaken(ds, i, before, after), [])
  {
    MistakenText(ds, i, before, after);
    RoundTrip(n, name, Mistaken(ds, i, before, after));
  }

  lemma SortedOne(t: string)
    ensures Sorted([t]) == [t]
  {
    SortedTags([t]);
    var p: seq<nat> :| |p| == 1 && StableSort.IndicesBelow(p, 1) && Sorted([t]) == StableSort.Permute([t], p);
  }

  /** For one: a counter tagged `t` and a set value `a:b` are read as a counter tagged
      `t:a` and a set value `b`. */
  lemma MisreadSet(n: Numbers)
    requires n.value("1") == Some(1.0)
    ensures Parse(n, "x:1|c|#t:a:b|s") ==
              Ok([Reading("x", Number(1.0), "c", Some(["t:a"]), 1.0), Reading("x", Raw("b"), "s", None, 1.0)])
  {
    var ds := [Datum("1", "c", None, Some(["t"])), Datum("a:b", "s", None, None)];
    var counter, ids := Datum("1", "c", None, Some(["t:a"])), Datum("b", "s", None, None);
    assert "t" + [':'] + "a" == "t:a" && ["t"][0 := "t:a"] == ["t:a"];
    assert ds[1].value == "a" + [':'] + "b" && Extended(ds[0], "a") == counter;
    assert Mistaken(ds, 0, "a", "b") == [counter, ids];
    ColonInLaterValueMisread(n, "x", ds, 0, "a", "b");
    TwoPrinted(ds);
    TwoMeant(n, counter, ids);
  }

  lemma TwoPrinted(ds: seq<Datum>)
    requires ds == [Datum("1", "c", None, Some(["t"])), Datum("a:b", "s", None, None)]
    ensures "x" + [':'] + Join(Prints(ds), ':') == "x:1|c|#t:a:b|s"
  {
    assert Print(ds[0]) == "1|c|#t" && Print(ds[1]) == "a:b|s";
    assert Prints(ds) == ["1|c|#t"] + ["a:b|s"];
    JoinFirst("1|c|#t", ["a:b|s"], ':');
  }

  lemma TwoMeant(n: Numbers, counter: Datum, ids: Datum)
    requires n.value("1") == Some(1.0)
    requires counter == Datum("1", "c", None, Some(["t:a"])) && ids == Datum("b", "s", None, None)
    ensures Meanings(n, "x", [counter, ids], []) ==
              Ok([Reading("x", Number(1.0), "c", Some(["t:a"]), 1.0), Reading("x", Raw("b"), "s", None, 1.0)])
  {
    SortedOne("t:a");
    var first := Reading("x", Number(1.0), "c", Some(["t:a"]), 1.0);
    assert Meaning(n, "x", counter) == Ok(Some(first));
    assert [counter, ids][1..] == [ids] && [] + [first] == [first];
    assert Meanings(n, "x", [ids], [first]) == Meanings(n, "x", [counter, ids], []);
    var second := Reading("x", Raw("b"), "s", None, 1.0);
    assert Meaning(n, "x", ids) == Ok(Some(second));
    assert [ids][1..] == [] && [first] + [second] == [first, second];
    assert Meanings(n, "x", [ids], [first]) == Meanings(n, "x", [], [first] + [second]);
  }
}
