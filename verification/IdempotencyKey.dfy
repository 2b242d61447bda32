/**
 * The text that is hashed into an idempotency key, and when two actions share
 * it. The hash itself is not part of this model.
 */
module IdempotencyKey {
  import opened Json
  import opened JsonOrder

  /** `f"{incident_id}:{action_type}:{target_service}:{serialized_params}"` */
  function RawKey(incident: string, actionType: string, target: string, parameters: Json): string {
    Prefix(incident, actionType, target) + ":" + Dumps(parameters)
  }

  function Prefix(incident: string, actionType: string, target: string): string {
    incident + ":" + actionType + ":" + target
  }

  // Reading a printed value from left to right: inside or outside a string.

  datatype Quote = Out | In | Escaped

  function After(q: Quote, c: char): Quote {
    match q
    case Out => if c == '"' then In else Out
    case In => if c == '"' then Out else if c == '\\' then Escaped else In
    case Escaped => In
  }

  function Scan(s: string, q: Quote): Quote {
    if s == "" then q else Scan(s[1..], After(q, s[0]))
  }

  /** Outside strings there is no backslash, and every colon is followed by a space. */
  ghost predicate Quiet(s: string, q: Quote) {
    s != "" ==>
      && (q == Out ==> s[0] != '\\' && (s[0] == ':' ==> |s| > 1 && s[1] == ' '))
      && Quiet(s[1..], After(q, s[0]))
  }

  lemma {:induction false} ScanConcat(a: string, b: string, q: Quote)
    ensures Scan(a + b, q) == Scan(b, Scan(a, q))
  {
    if a == "" {
      assert a + b == b;
    } else {
      assert (a + b)[1..] == a[1..] + b;
      ScanConcat(a[1..], b, After(q, a[0]));
    }
  }

  lemma {:induction false} QuietConcat(a: string, b: string, q: Quote)
    requires Quiet(a, q) && Quiet(b, Scan(a, q))
    ensures Quiet(a + b, q)
  {
    if a == "" {
      assert a + b == b;
    } else {
      assert (a + b)[1..] == a[1..] + b;
      QuietConcat(a[1..], b, After(q, a[0]));
    }
  }

  lemma {:induction false} QuietSuffix(a: string, b: string, q: Quote)
    requires Quiet(a + b, q)
    ensures Quiet(b, Scan(a, q))
  {
    if a == "" {
      assert a + b == b;
    } else {
      assert (a + b)[1..] == a[1..] + b;
      QuietSuffix(a[1..], b, After(q, a[0]));
    }
  }

  /** A text that is read completely outside and leaves the reader outside. */
  ghost predicate Outside(s: string) {
    Quiet(s, Out) && Scan(s, Out) == Out
  }

  lemma OutsideConcat(a: string, b: string)
    requires Outside(a) && Outside(b)
    ensures Outside(a + b)
  {
    ScanConcat(a, b, Out);
    QuietConcat(a, b, Out);
  }

  /** No quote and no backslash. */
  ghost predicate Plain(s: string) {
    forall i :: 0 <= i < |s| ==> s[i] != '"' && s[i] != '\\'
  }

  lemma {:induction false} PlainIsOutside(s: string)
    requires Plain(s) && ':' !in s
    ensures Outside(s)
  {
    if s != "" {
      PlainIsOutside(s[1..]);
    }
  }

  // Strings

  /** A text without quotes and backslashes is read inside a string without leaving it. */
  lemma {:induction false} PlainStaysInside(s: string)
    requires Plain(s)
    ensures Scan(s, In) == In && Quiet(s, In)
  {
    if s != "" {
      PlainStaysInside(s[1..]);
    }
  }

  /** A backslash, one character of any kind, and plain text. */
  lemma EscapeStaysInside(c: char, s: string)
    requires Plain(s)
    ensures Scan("\\" + [c] + s, In) == In && Quiet("\\" + [c] + s, In)
  {
    var t := "\\" + [c] + s;
    assert t[1..] == [c] + s;
    assert t[1..][1..] == s;
    PlainStaysInside(s);
  }

  lemma HexIsPlain(n: nat)
    requires n < 0x10000
    ensures Plain(Hex4(n))
  {
  }

  lemma UnicodeStaysInside(n: nat)
    requires n < 0x10000
    ensures Scan(UnicodeEscape(n), In) == In && Quiet(UnicodeEscape(n), In)
  {
    HexIsPlain(n);
    EscapeStaysInside('u', Hex4(n));
    assert UnicodeEscape(n) == "\\" + ['u'] + Hex4(n);
  }

  lemma CharStaysInside(c: char)
    ensures Scan(Escape(c), In) == In && Quiet(Escape(c), In)
  {
    if c == '"' || c == '\\' || c == '\n' || c == '\r' || c == '\t' || c as int == 8 || c as int == 12 {
      EscapeStaysInside(Escape(c)[1], "");
      assert Escape(c) == "\\" + [Escape(c)[1]] + "";
    } else if Printable(c) {
      PlainStaysInside([c]);
    } else if c as int < 0x10000 {
      UnicodeStaysInside(c as int);
    } else {
      var h, l := 0xD800 + (c as int - 0x10000) / 0x400, 0xDC00 + (c as int - 0x10000) % 0x400;
      UnicodeStaysInside(h);
      UnicodeStaysInside(l);
      ScanConcat(UnicodeEscape(h), UnicodeEscape(l), In);
      QuietConcat(UnicodeEscape(h), UnicodeEscape(l), In);
    }
  }

  lemma {:induction false} EscapedStaysInside(s: string)
    ensures Scan(EscapeAll(s), In) == In && Quiet(EscapeAll(s), In)
  {
    if s != "" {
      CharStaysInside(s[0]);
      EscapedStaysInside(s[1..]);
      ScanConcat(Escape(s[0]), EscapeAll(s[1..]), In);
      QuietConcat(Escape(s[0]), EscapeAll(s[1..]), In);
    }
  }

  lemma QuotedIsOutside(s: string)
    ensures Outside("\"" + EscapeAll(s) + "\"")
  {
    var body := EscapeAll(s) + "\"";
    EscapedStaysInside(s);
    ScanConcat(EscapeAll(s), "\"", In);
    QuietConcat(EscapeAll(s), "\"", In);
    assert "\"" + EscapeAll(s) + "\"" == "\"" + body;
    assert ("\"" + body)[1..] == body;
  }

  // Values

  lemma IntIsOutside(n: int)
    ensures Outside(PrintInt(n))
  {
    var s := PrintInt(n);
    forall i | 0 <= i < |s| ensures s[i] == '-' || IsDigit(s[i]) {
      assert s[i] in s;
    }
    PlainIsOutside(s);
  }

  lemma {:induction false} PrintIsOutside(v: Json)
    ensures Outside(Print(v))
    decreases v, 1
  {
    match v
    case Null => PlainIsOutside("null");
    case Bool(b) => PlainIsOutside(if b then "true" else "false");
    case Int(n) => IntIsOutside(n);
    case Str(s) => QuotedIsOutside(s);
    case Arr(items) =>
      ItemsAreOutside(items);
      Bracketed("[", PrintItems(items), "]");
    case Obj(fields) =>
      FieldsAreOutside(fields);
      Bracketed("{", PrintFields(fields), "}");
  }

  lemma Bracketed(open: string, body: string, close: string)
    requires Plain(open) && ':' !in open && Plain(close) && ':' !in close && Outside(body)
    ensures Outside(open + body + close)
  {
    PlainIsOutside(open);
    PlainIsOutside(close);
    OutsideConcat(open, body);
    OutsideConcat(open + body, close);
  }

  lemma {:induction false} ItemsAreOutside(items: seq<Json>)
    ensures Outside(PrintItems(items))
    decreases items, 0
  {
    if items != [] {
      PrintIsOutside(items[0]);
      ItemsAreOutside(items[1..]);
      PlainIsOutside(", ");
      OutsideConcat(", ", PrintItems(items[1..]));
      OutsideConcat(Print(items[0]), if |items| == 1 then "" else ", " + PrintItems(items[1..]));
    }
  }

  lemma {:induction false} FieldIsOutside(f: Field)
    ensures Outside(PrintField(f))
    decreases f, 0
  {
    var key := "\"" + EscapeAll(f.key) + "\"";
    QuotedIsOutside(f.key);
    PrintIsOutside(f.value);
    ColonIsOutside();
    OutsideConcat(key, ": ");
    OutsideConcat(key + ": ", Print(f.value));
    FieldText(EscapeAll(f.key), Print(f.value));
  }

  lemma FieldText(key: string, value: string)
    ensures "\"" + key + "\": " + value == "\"" + key + "\"" + ": " + value
  {
    assert "\"" + key + "\": " == "\"" + key + "\"" + ": ";
  }

  lemma ColonIsOutside()
    ensures Outside(": ")
  {
    assert ": "[1..] == " ";
    PlainIsOutside(" ");
  }

  lemma {:induction false} FieldsAreOutside(fields: seq<Field>)
    ensures Outside(PrintFields(fields))
    decreases fields, 0
  {
    if fields != [] {
      FieldIsOutside(fields[0]);
      FieldsAreOutside(fields[1..]);
      PlainIsOutside(", ");
      OutsideConcat(", ", PrintFields(fields[1..]));
      OutsideConcat(PrintField(fields[0]), if |fields| == 1 then "" else ", " + PrintFields(fields[1..]));
    }
  }

  // The text of an object never ends in a colon followed by the text of another.

  /** Read from outside and from inside, a text without free backslashes keeps the two readers apart. */
  lemma {:induction false} ReadersStayApart(s: string, p: Quote, q: Quote)
    requires (p == Out && q == In) || (p == In && q == Out)
    requires Quiet(s, p) && Quiet(s, q)
    ensures (Scan(s, p) == Out && Scan(s, q) == In) || (Scan(s, p) == In && Scan(s, q) == Out)
  {
    if s != "" {
      ReadersStayApart(s[1..], After(p, s[0]), After(q, s[0]));
    }
  }

  lemma NoColonSuffix(whole: string, head: string, tail: string)
    requires Outside(whole) && Outside(tail) && tail != "" && tail[0] == '{'
    ensures whole != head + ":" + tail
  {
    if whole == head + ":" + tail {
      var q := Scan(head, Out);
      assert whole == head + (":" + tail);
      QuietSuffix(head, ":" + tail, Out);
      ScanConcat(head, ":" + tail, Out);
      assert (":" + tail)[1..] == tail;
      if q != Out {
        ReadersStayApart(tail, Out, In);
      }
    }
  }

  lemma ObjectText(v: Json)
    requires v.Obj?
    ensures Outside(Dumps(v)) && Dumps(v) != "" && Dumps(v)[0] == '{'
  {
    PrintIsOutside(Normalize(v));
  }

  lemma ColonSplit(a: string, x: string, b: string, y: string)
    requires a + ":" + x == b + ":" + y && |a| < |b|
    ensures exists head :: x == head + ":" + y
  {
    var s := a + ":" + x;
    var head := b[|a| + 1..];
    assert x == s[|a| + 1..];
    assert s[|a| + 1..] == head + ":" + y;
  }

  /** The keys end in the same parameters only if they were split at the same colon. */
  lemma SameSplit(a: string, v: Json, b: string, w: Json)
    requires v.Obj? && w.Obj? && a + ":" + Dumps(v) == b + ":" + Dumps(w)
    ensures a == b && Dumps(v) == Dumps(w)
  {
    ObjectText(v);
    ObjectText(w);
    if |a| < |b| {
      ColonSplit(a, Dumps(v), b, Dumps(w));
      var head :| Dumps(v) == head + ":" + Dumps(w);
      NoColonSuffix(Dumps(v), head, Dumps(w));
    } else if |b| < |a| {
      ColonSplit(b, Dumps(w), a, Dumps(v));
      var head :| Dumps(w) == head + ":" + Dumps(v);
      NoColonSuffix(Dumps(w), head, Dumps(v));
    } else {
      CutAtColon(a, Dumps(v), b, Dumps(w));
    }
  }

  /**
   * For all names and all parameters: two actions share the hashed text exactly
   * when their parameters mean the same and their joined names are equal.
   */
  lemma SharedKey(i: string, a: string, t: string, v: Json, j: string, b: string, u: string, w: Json)
    requires v.Obj? && w.Obj? && WellFormed(v) && WellFormed(w)
    ensures RawKey(i, a, t, v) == RawKey(j, b, u, w) <==>
              Meaning(v) == Meaning(w) && Prefix(i, a, t) == Prefix(j, b, u)
  {
    DumpsInjective(v, w);
    if RawKey(i, a, t, v) == RawKey(j, b, u, w) {
      SameSplit(Prefix(i, a, t), v, Prefix(j, b, u), w);
    }
  }

  // The names

  predicate ColonFree(s: string) { ':' !in s }

  lemma NoEarlierColon(a: string, x: string, b: string, y: string)
    requires ColonFree(b) && a + ":" + x == b + ":" + y
    ensures |a| >= |b|
  {
    assert (a + ":" + x)[|a|] == ':';
    assert forall k :: 0 <= k < |b| ==> (b + ":" + y)[k] == b[k];
  }

  lemma NoLaterColon(a: string, x: string, b: string, y: string)
    requires ColonFree(x) && a + ":" + x == b + ":" + y
    ensures |a| >= |b|
  {
    assert (b + ":" + y)[|b|] == ':';
    assert forall k :: |a| < k < |a| + 1 + |x| ==> (a + ":" + x)[k] == x[k - |a| - 1];
  }

  lemma CutAtColon(a: string, x: string, b: string, y: string)
    requires |a| == |b| && a + ":" + x == b + ":" + y
    ensures a == b && x == y
  {
    var s, t := a + ":" + x, b + ":" + y;
    assert a == s[..|a|] && b == t[..|b|];
    assert x == s[|a| + 1..] && y == t[|b| + 1..];
  }

  /** A name without a colon is what stands before the first colon. */
  lemma FirstColon(a: string, x: string, b: string, y: string)
    requires ColonFree(a) && ColonFree(b) && a + ":" + x == b + ":" + y
    ensures a == b && x == y
  {
    NoEarlierColon(a, x, b, y);
    NoEarlierColon(b, y, a, x);
    CutAtColon(a, x, b, y);
  }

  /** ... and what stands after the last one. */
  lemma LastColon(a: string, x: string, b: string, y: string)
    requires ColonFree(x) && ColonFree(y) && a + ":" + x == b + ":" + y
    ensures a == b && x == y
  {
    NoLaterColon(a, x, b, y);
    NoLaterColon(b, y, a, x);
    CutAtColon(a, x, b, y);
  }

  /**
   * When the incidents or the targets are free of colons (action types always
   * are), the text determines the incident, the type, the target and the meaning
   * of the parameters. Incident ids are hexadecimal, so the first case applies.
   */
  lemma KeyDeterminesAction(i: string, a: string, t: string, v: Json, j: string, b: string, u: string, w: Json)
    requires v.Obj? && w.Obj? && WellFormed(v) && WellFormed(w)
    requires ColonFree(a) && ColonFree(b)
    requires (ColonFree(i) && ColonFree(j)) || (ColonFree(t) && ColonFree(u))
    ensures RawKey(i, a, t, v) == RawKey(j, b, u, w) <==>
              i == j && a == b && t == u && Meaning(v) == Meaning(w)
  {
    SharedKey(i, a, t, v, j, b, u, w);
    if Prefix(i, a, t) == Prefix(j, b, u) {
      if ColonFree(i) && ColonFree(j) {
        assert Prefix(i, a, t) == i + ":" + (a + ":" + t) && Prefix(j, b, u) == j + ":" + (b + ":" + u);
        FirstColon(i, a + ":" + t, j, b + ":" + u);
        FirstColon(a, t, b, u);
      } else {
        LastColon(i + ":" + a, t, j + ":" + b, u);
        LastColon(i, a, j, b);
      }
    }
  }

  /** With colons on both sides two different actions can share the text. */
  lemma ColonsCollide()
    ensures RawKey("a", "clear_cache", "b:clear_cache:c", Obj([]))
        == RawKey("a:clear_cache:b", "clear_cache", "c", Obj([]))
  {
    assert Prefix("a", "clear_cache", "b:clear_cache:c") == "a:clear_cache:b:clear_cache:c";
    assert Prefix("a:clear_cache:b", "clear_cache", "c") == "a:clear_cache:b:clear_cache:c";
  }
}
