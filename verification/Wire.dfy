/**
  The text both line protocols of the helper are made of: fields separated by single spaces, ended by
  one newline, numbers in canonical decimal (helper/src/call_control_protocol.cpp,
  helper/src/conversation_handoff_protocol.cpp).
*/
module Wire {
  import opened Prelude

  const MAXIMUM_WIRE_BYTES := 512
  const UINT64_MAX: nat := 0xFFFF_FFFF_FFFF_FFFF
  const UINT32_MAX: nat := 0xFFFF_FFFF

  // ---------------------------------------------------------------- fields

  predicate IsField(t: string) {
    t != "" && ' ' !in t
  }

  predicate AreFields(ts: seq<string>) {
    forall i :: 0 <= i < |ts| ==> IsField(ts[i])
  }

  function Joined(ts: seq<string>): string {
    if ts == [] then ""
    else if |ts| == 1 then ts[0]
    else Joined(ts[..|ts| - 1]) + " " + ts[|ts| - 1]
  }

  lemma JoinedNext(ts: seq<string>, t: string)
    requires ts != []
    ensures Joined(ts + [t]) == Joined(ts) + " " + t
  {
    assert (ts + [t])[..|ts|] == ts;
  }

  /** A text is the join of at most one list of fields. */
  lemma {:induction false} JoinedInjective(a: seq<string>, b: seq<string>)
    requires AreFields(a) && AreFields(b) && a != [] && b != [] && Joined(a) == Joined(b)
    ensures a == b
    decreases |a|
  {
    var i, j := |a| - 1, |b| - 1;
    LastField(a);
    LastField(b);
    if i == 0 || j == 0 {
      if i > 0 { HasSpace(a); }
      if j > 0 { HasSpace(b); }
    } else {
      SameTail(Joined(a[..i]), a[i], Joined(b[..j]), b[j]);
      JoinedInjective(a[..i], b[..j]);
      assert a == a[..i] + [a[i]] && b == b[..j] + [b[j]];
    }
  }

  lemma LastField(a: seq<string>)
    requires AreFields(a) && a != []
    ensures IsField(a[|a| - 1]) && AreFields(a[..|a| - 1])
  {
  }

  lemma HasSpace(a: seq<string>)
    requires |a| > 1
    ensures ' ' in Joined(a)
  {
    assert Joined(a)[|Joined(a[..|a| - 1])|] == ' ';
  }

  lemma SameTail(x: string, t: string, y: string, u: string)
    requires x + " " + t == y + " " + u && ' ' !in t && ' ' !in u
    ensures x == y && t == u
  {
    var w, v := x + " " + t, y + " " + u;
    forall p | |x| < p < |w| ensures w[p] != ' ' { assert w[p] == t[p - |x| - 1]; }
    forall p | |y| < p < |v| ensures v[p] != ' ' { assert v[p] == u[p - |y| - 1]; }
    assert w[|x|] == ' ' && v[|y|] == ' ';
    assert w[..|x|] == x && v[..|y|] == y;
    assert w[|x| + 1..] == t && v[|y| + 1..] == u;
  }

  /** The fields a text is the join of, or nothing if it is the join of none. */
  ghost function FieldsOf(text: string): (ts: seq<string>)
    ensures ts != [] ==> AreFields(ts) && Joined(ts) == text
  {
    if HasFields(text) then (var ts :| ts != [] && AreFields(ts) && Joined(ts) == text; ts) else []
  }

  ghost predicate HasFields(text: string) {
    exists ts :: ts != [] && AreFields(ts) && Joined(ts) == text
  }

  lemma FieldsOfJoined(ts: seq<string>)
    requires ts != [] && AreFields(ts)
    ensures FieldsOf(Joined(ts)) == ts
  {
    assert HasFields(Joined(ts));
    JoinedInjective(ts, FieldsOf(Joined(ts)));
  }

  /** `Split`: nothing if some field is empty. */
  method Split(wire: string) returns (tokens: seq<string>)
    ensures tokens == FieldsOf(wire)
  {
    tokens := [];
    var start := 0;
    while start <= |wire|
      invariant 0 <= start <= |wire|
      invariant AreFields(tokens)
      invariant SplitSoFar(wire, tokens, start)
      decreases |wire| - start
    {
      var end := FindSpace(wire, start);
      if end == start {
        forall ts | ts != [] && AreFields(ts) ensures Joined(ts) != wire {
          if start <= |Joined(ts)| { NoEmptyField(ts, start); }
        }
        return [];
      }
      ghost var before := tokens;
      tokens := tokens + [wire[start..end]];
      SplitNext(wire, before, start, end);
      if end == |wire| {
        assert wire[..end] == wire;
        FieldsOfJoined(tokens);
        return;
      }
      start := end + 1;
    }
  }

  /** What has been split is everything before `start`, the separator included. */
  ghost predicate SplitSoFar(wire: string, tokens: seq<string>, start: nat) {
    && start <= |wire|
    && (tokens == [] ==> start == 0)
    && (tokens != [] ==> start > 0 && wire[start - 1] == ' ' && wire[..start - 1] == Joined(tokens))
  }

  lemma SplitNext(wire: string, tokens: seq<string>, start: nat, end: nat)
    requires SplitSoFar(wire, tokens, start) && start < end <= |wire|
    ensures Joined(tokens + [wire[start..end]]) == wire[..end]
  {
    var t := wire[start..end];
    if tokens == [] {
      assert Joined([t]) == t;
    } else {
      JoinedNext(tokens, t);
      assert wire[..end] == wire[..start - 1] + " " + t;
    }
  }

  method FindSpace(wire: string, start: nat) returns (end: nat)
    requires start <= |wire|
    ensures start <= end <= |wire| && ' ' !in wire[start..end] && (end < |wire| ==> wire[end] == ' ')
  {
    end := start;
    while end < |wire| && wire[end] != ' '
      invariant start <= end <= |wire| && ' ' !in wire[start..end]
    {
      assert wire[start..end + 1] == wire[start..end] + [wire[end]];
      end := end + 1;
    }
  }

  /** An empty field at this place: between two spaces, or a space and an end of the text. */
  predicate EmptyAt(wire: string, at: nat)
    requires at <= |wire|
  {
    (at == 0 || wire[at - 1] == ' ') && (at == |wire| || wire[at] == ' ')
  }

  lemma {:induction false} NoEmptyField(ts: seq<string>, at: nat)
    requires ts != [] && AreFields(ts) && at <= |Joined(ts)|
    ensures !EmptyAt(Joined(ts), at)
    decreases |ts|
  {
    var wire, n := Joined(ts), |ts| - 1;
    LastField(ts);
    if n == 0 {
      FieldEdge(ts[0], at);
    } else {
      var front := Joined(ts[..n]);
      assert wire == front + " " + ts[n];
      if at <= |front| {
        NoEmptyField(ts[..n], at);
        assert at > 0 ==> front[at - 1] == wire[at - 1];
        assert at < |front| ==> front[at] == wire[at];
      } else {
        FieldEdge(ts[n], at - |front| - 1);
        assert at > |front| + 1 ==> wire[at - 1] == ts[n][at - |front| - 2];
        assert at < |wire| ==> wire[at] == ts[n][at - |front| - 1];
      }
    }
  }

  lemma FieldEdge(t: string, at: nat)
    requires IsField(t) && at <= |t|
    ensures at < |t| ==> t[at] != ' '
    ensures at > 0 ==> t[at - 1] != ' '
    ensures !EmptyAt(t, at)
  {
    assert at < |t| ==> t[at] in t;
    assert at > 0 ==> t[at - 1] in t;
  }

  // ---------------------------------------------------------------- lines

  predicate IsLine(wire: string) {
    && 0 < |wire| <= MAXIMUM_WIRE_BYTES
    && wire[|wire| - 1] == '\n'
    && '\n' !in wire[..|wire| - 1]
    && '\r' !in wire
  }

  /** The fields of one line, or nothing. */
  ghost function LineFields(wire: string): (ts: seq<string>)
    ensures ts != [] ==> IsLine(wire) && AreFields(ts) && wire == Joined(ts) + "\n"
  {
    if IsLine(wire) then FieldsOf(wire[..|wire| - 1]) else []
  }

  lemma LineFieldsOfJoined(ts: seq<string>)
    requires ts != [] && AreFields(ts) && IsLine(Joined(ts) + "\n")
    ensures LineFields(Joined(ts) + "\n") == ts
  {
    assert (Joined(ts) + "\n")[..|Joined(ts)|] == Joined(ts);
    FieldsOfJoined(ts);
  }

  /** `Prepare` up to the version field. */
  method Fields(wire: string) returns (tokens: seq<string>)
    ensures tokens == LineFields(wire)
  {
    if wire == "" || |wire| > MAXIMUM_WIRE_BYTES || wire[|wire| - 1] != '\n'
       || '\n' in wire[..|wire| - 1] || '\r' in wire {
      return [];
    }
    tokens := Split(wire[..|wire| - 1]);
  }

  // ---------------------------------------------------------------- canonical numbers

  predicate IsDigit(c: char) {
    '0' <= c <= '9'
  }

  function DigitOf(d: nat): char
    requires d < 10
  {
    '0' + d as char
  }

  function ValueOf(c: char): (d: nat)
    requires IsDigit(c)
    ensures d < 10 && DigitOf(d) == c
  {
    (c - '0') as nat
  }

  /** `std::to_string` of an unsigned number. */
  function Decimal(n: nat): (s: string)
    ensures s != "" && forall i :: 0 <= i < |s| ==> IsDigit(s[i])
  {
    if n < 10 then [DigitOf(n)] else Decimal(n / 10) + [DigitOf(n % 10)]
  }

  /** The number a run of digits spells; `std::from_chars` without its range check. */
  function Spelt(s: string): nat
    requires forall i :: 0 <= i < |s| ==> IsDigit(s[i])
  {
    if s == "" then 0 else 10 * Spelt(s[..|s| - 1]) + ValueOf(s[|s| - 1])
  }

  lemma {:induction false} SpeltDecimal(n: nat)
    ensures Spelt(Decimal(n)) == n
    ensures |Decimal(n)| > 1 ==> Decimal(n)[0] != '0'
    ensures n > 0 ==> Decimal(n)[0] != '0'
    decreases n
  {
    var s := Decimal(n);
    if n < 10 {
      assert s[..0] == "" && Spelt("") == 0;
      assert ValueOf(s[0]) == n;
    } else {
      SpeltDecimal(n / 10);
      assert s[..|s| - 1] == Decimal(n / 10);
      assert ValueOf(s[|s| - 1]) == n % 10;
    }
  }

  predicate IsCanonical(s: string) {
    s != "" && (forall i :: 0 <= i < |s| ==> IsDigit(s[i])) && (|s| > 1 ==> s[0] != '0')
  }

  lemma {:induction false} DecimalSpelt(s: string)
    requires IsCanonical(s)
    ensures Decimal(Spelt(s)) == s
    ensures s[0] != '0' ==> Spelt(s) > 0
    decreases |s|
  {
    var front, last := s[..|s| - 1], s[|s| - 1];
    assert s == front + [last];
    if |s| == 1 {
      assert Spelt(front) == 0;
      assert Spelt(s) == ValueOf(s[0]);
    } else {
      DecimalSpelt(front);
      assert Spelt(front) > 0;
      var n := Spelt(s);
      assert n / 10 == Spelt(front) && n % 10 == ValueOf(last);
    }
  }

  /** `ParseCanonicalUnsigned` for a type that ends at `max`. */
  function ParseCanonical(s: string, max: nat, allowZero: bool): (r: Option<nat>)
    ensures forall n: nat :: r == Some(n) <==> s == Decimal(n) && n <= max && (allowZero || n > 0)
  {
    CanonicalMeaning(s);
    if !IsCanonical(s) || Spelt(s) > max || (!allowZero && Spelt(s) == 0) then None else Some(Spelt(s))
  }

  lemma CanonicalMeaning(s: string)
    ensures IsCanonical(s) ==> Decimal(Spelt(s)) == s
    ensures forall n: nat :: s == Decimal(n) ==> IsCanonical(s) && Spelt(s) == n
  {
    if IsCanonical(s) { DecimalSpelt(s); }
    forall n: nat | s == Decimal(n) ensures IsCanonical(s) && Spelt(s) == n { SpeltDecimal(n); }
  }
}
