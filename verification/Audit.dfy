/**
 The audit log: one line per record, numbered by a counter that is rebuilt from the file on opening.
 An id is the counter printed with at least six digits.
 */
module Audit {
  import opened Wrappers

  // ---------- Audit ids ----------

  function Digit(d: nat): char
    requires d < 10
  {
    ['0', '1', '2', '3', '4', '5', '6', '7', '8', '9'][d]
  }

  function Digits(n: nat): string {
    if n < 10 then [Digit(n)] else Digits(n / 10) + [Digit(n % 10)]
  }

  function PadTo(s: string, width: nat): string
    decreases width - |s|
  {
    if |s| >= width then s else PadTo("0" + s, width)
  }

  /** `f"audit_{n:06d}"`. */
  function AuditId(n: nat): string {
    "audit_" + PadTo(Digits(n), 6)
  }

  /** The number a digit string stands for. */
  function ValueOf(s: string): nat {
    if s == [] then 0
    else ValueOf(s[..|s| - 1]) * 10 + DigitValue(s[|s| - 1])
  }

  function DigitValue(c: char): nat {
    if '0' <= c <= '9' then c as nat - '0' as nat else 0
  }

  lemma {:induction false} DigitsRead(n: nat)
    ensures ValueOf(Digits(n)) == n
  {
    if n >= 10 {
      DigitsRead(n / 10);
      assert Digits(n)[..|Digits(n)| - 1] == Digits(n / 10);
    } else {
      assert Digits(n)[..0] == [];
    }
  }

  lemma {:induction false} LeadingZero(s: string)
    ensures ValueOf("0" + s) == ValueOf(s)
  {
    if s == [] {
      assert "0" + s == "0" && "0"[..0] == [];
    } else {
      assert ("0" + s)[..|"0" + s| - 1] == "0" + s[..|s| - 1];
      LeadingZero(s[..|s| - 1]);
    }
  }

  lemma {:induction false} PaddingReads(s: string, width: nat)
    ensures ValueOf(PadTo(s, width)) == ValueOf(s)
    decreases width - |s|
  {
    if |s| < width {
      PaddingReads("0" + s, width);
      LeadingZero(s);
    }
  }

  /** The counter can be read back from an id, however many digits it has. */
  lemma AuditIdReads(n: nat)
    ensures |AuditId(n)| >= 6 && ValueOf(AuditId(n)[6..]) == n
  {
    DigitsRead(n);
    PaddingReads(Digits(n), 6);
  }

  lemma AuditIdInjective(m: nat, n: nat)
    ensures AuditId(m) == AuditId(n) <==> m == n
  {
    AuditIdReads(m);
    AuditIdReads(n);
  }

  predicate IsDigit(c: char) {
    '0' <= c <= '9'
  }

  lemma {:induction false} DigitsShape(n: nat)
    ensures |Digits(n)| >= 1 && forall i :: 0 <= i < |Digits(n)| ==> IsDigit(Digits(n)[i])
    ensures n > 0 ==> Digits(n)[0] != '0'
  {
    if n >= 10 {
      DigitsShape(n / 10);
    }
  }

  function Power(k: nat): nat {
    if k == 0 then 1 else 10 * Power(k - 1)
  }

  lemma {:induction false} DigitsLength(n: nat, k: nat)
    requires n < Power(k) && k >= 1
    ensures |Digits(n)| <= k
  {
    if n >= 10 {
      assert Power(k) == 10 * Power(k - 1);
      DigitsLength(n / 10, k - 1);
    }
  }

  lemma {:induction false} PaddingShape(s: string, width: nat)
    requires forall i :: 0 <= i < |s| ==> IsDigit(s[i])
    ensures var p := PadTo(s, width);
            && |p| == (if |s| >= width then |s| else width)
            && (forall i :: 0 <= i < |p| ==> IsDigit(p[i]))
            && (|s| >= width ==> p == s)
    decreases width - |s|
  {
    if |s| < width {
      PaddingShape("0" + s, width);
    }
  }

  /** The id is `audit_` and decimal digits that stand for the counter: exactly six up to 999999, and beyond
      that as many as it takes, without a leading zero. */
  lemma AuditIdFormat(n: nat)
    ensures var (prefix, digits) := (AuditId(n)[..6], AuditId(n)[6..]);
            && |AuditId(n)| >= 12 && prefix == "audit_" && ValueOf(digits) == n
            && (forall i :: 0 <= i < |digits| ==> IsDigit(digits[i]))
            && (n < 1000000 ==> |digits| == 6)
            && (|digits| > 6 ==> digits[0] != '0')
  {
    AuditIdReads(n);
    DigitsShape(n);
    PaddingShape(Digits(n), 6);
    if n < 1000000 {
      assert Power(6) == 1000000 by {
        assert Power(3) == 1000;
      }
      DigitsLength(n, 6);
    }
  }

  // ---------- The logger ----------

  /** A line of the log file: the id written, and the record it carries. */
  datatype Line<T> = Line(auditId: string, record: T)

  class AuditLogger<T> {
    var counter: nat
    var lines: seq<Line<T>>

    /** Opens an existing file: the counter is the number of its lines. */
    constructor (file: seq<Line<T>>)
      ensures lines == file && counter == |file|
    {
      lines := file;
      new;
      counter := 0;
      for i := 0 to |file|
        invariant counter == i && lines == file
      {
        counter := counter + 1;
      }
    }

    method NextId() returns (id: string)
      modifies this`counter
      ensures counter == old(counter) + 1 && id == AuditId(counter)
    {
      counter := counter + 1;
      id := AuditId(counter);
    }

    /** Appends a record under its own id, if it brings one, or under the next. */
    method Write(record: T, given: Option<string>) returns (id: string)
      modifies this
      ensures id == match given case Some(own) => own case None => AuditId(counter)
      ensures counter == old(counter) + if given.None? then 1 else 0
      ensures lines == old(lines) + [Line(id, record)]
    {
      match given {
        case Some(own) => id := own;
        case None => id := NextId();
      }
      lines := lines + [Line(id, record)];
    }
  }

  // ---------- Concurrent writers and reopening ----------

  /** The log file as the numbers behind its ids, and the writers between claiming an id and
      appending their line: two separate sections under the lock. */
  datatype Writers = Writers(counter: nat, lines: seq<nat>, pending: map<nat, nat>)

  datatype WriterStep = Claim(writer: nat) | Append(writer: nat) | Reopen

  const NO_WRITERS := Writers(0, [], map[])

  function Step(w: Writers, s: WriterStep): Writers {
    match s
    case Claim(t) =>
      if t in w.pending then w
      else w.(counter := w.counter + 1, pending := w.pending[t := w.counter + 1])
    case Append(t) =>
      if t !in w.pending then w
      else w.(lines := w.lines + [w.pending[t]], pending := w.pending - {t})
    case Reopen => w.(counter := |w.lines|)
  }

  function Run(w: Writers, steps: seq<WriterStep>): Writers
    decreases |steps|
  {
    if steps == [] then w else Run(Step(w, steps[0]), steps[1..])
  }

  /** Every reopening finds no write in progress. */
  ghost predicate Quiescent(w: Writers, steps: seq<WriterStep>)
    decreases |steps|
  {
    steps == [] || ((steps[0].Reopen? ==> w.pending == map[]) && Quiescent(Step(w, steps[0]), steps[1..]))
  }

  /** The numbers 1 to counter are each used once, in the file or by a writer in progress. */
  ghost predicate Numbered(w: Writers) {
    && w.counter == |w.lines| + |w.pending|
    && (forall i, j :: 0 <= i < j < |w.lines| ==> w.lines[i] != w.lines[j])
    && (forall t, u :: t in w.pending && u in w.pending && t != u ==> w.pending[t] != w.pending[u])
    && (forall i, t :: 0 <= i < |w.lines| && t in w.pending ==> w.lines[i] != w.pending[t])
    && (forall n :: 1 <= n <= w.counter <==> n in w.lines || n in w.pending.Values)
  }

  lemma ClaimNumbered(w: Writers, t: nat)
    requires Numbered(w) && t !in w.pending
    ensures Numbered(Step(w, Claim(t)))
  {
    var w1 := Step(w, Claim(t));
    assert w.counter + 1 !in w.lines && w.counter + 1 !in w.pending.Values;
    assert w1.pending[t] == w.counter + 1;
    forall n | n in w.pending.Values ensures n in w1.pending.Values {
      var u :| u in w.pending && w.pending[u] == n;
      assert u in w1.pending && w1.pending[u] == n;
    }
    forall n | n in w1.pending.Values ensures n == w.counter + 1 || n in w.pending.Values {
      var u :| u in w1.pending && w1.pending[u] == n;
    }
  }

  lemma AppendNumbered(w: Writers, t: nat)
    requires Numbered(w) && t in w.pending
    ensures Numbered(Step(w, Append(t)))
  {
    var w1 := Step(w, Append(t));
    var n := w.pending[t];
    assert w1.pending.Keys == w.pending.Keys - {t};
    assert |w.pending.Keys| == |w.pending| && |w1.pending.Keys| == |w1.pending|;
    assert w1.pending.Values == w.pending.Values - {n} by {
      forall m | m in w.pending.Values - {n} ensures m in w1.pending.Values {
        var u :| u in w.pending && w.pending[u] == m;
        assert u in w1.pending && w1.pending[u] == m;
      }
    }
    assert forall m :: m in w1.lines <==> m in w.lines || m == n;
  }

  lemma StepNumbered(w: Writers, s: WriterStep)
    requires Numbered(w) && (s.Reopen? ==> w.pending == map[])
    ensures Numbered(Step(w, s))
  {
    match s {
      case Claim(t) => if t !in w.pending { ClaimNumbered(w, t); }
      case Append(t) => if t in w.pending { AppendNumbered(w, t); }
      case Reopen =>
    }
  }

  lemma {:induction false} RunNumbered(w: Writers, steps: seq<WriterStep>)
    requires Numbered(w) && Quiescent(w, steps)
    ensures Numbered(Run(w, steps))
    decreases |steps|
  {
    if steps != [] {
      StepNumbered(w, steps[0]);
      RunNumbered(Step(w, steps[0]), steps[1..]);
    }
  }

  /** Over any run of concurrent writes and quiescent reopenings, no two lines carry the same audit id,
      and the counter equals the number of lines whenever no write is in progress. */
  lemma AuditIdsDistinct(steps: seq<WriterStep>)
    requires Quiescent(NO_WRITERS, steps)
    ensures var w := Run(NO_WRITERS, steps);
            && (forall i, j :: 0 <= i < j < |w.lines| ==> AuditId(w.lines[i]) != AuditId(w.lines[j]))
            && (w.pending == map[] ==> w.counter == |w.lines|)
  {
    RunNumbered(NO_WRITERS, steps);
    var w := Run(NO_WRITERS, steps);
    forall i, j | 0 <= i < j < |w.lines| ensures AuditId(w.lines[i]) != AuditId(w.lines[j]) {
      AuditIdInjective(w.lines[i], w.lines[j]);
    }
  }

  /** Reopening is safe exactly when it is quiescent: otherwise the very next id is one already used by
      a line or by a writer in progress. */
  lemma ReopenFreshIff(w: Writers)
    requires Numbered(w)
    ensures var next := Step(w, Reopen).counter + 1;
            (next !in w.lines && next !in w.pending.Values) <==> w.pending == map[]
  {
    if w.pending != map[] {
      assert |w.pending| > 0;
    }
  }
}
