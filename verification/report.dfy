/**
 * cron_report.py: reads the items stored in the last eight hours, drops
 * repeated `id_imovel`s keeping the first, and mails them as a report
 * whose subject announces how many there are.
 *
 * `updated_at` is a timestamp in seconds rather than an ISO-8601 string;
 * the scan is the sequence of items its first page returns, in scan order.
 */
module Report {
  import opened Wrappers
  import opened Text
  import opened Ingest

  /** The look-back of the query, `timedelta(hours=8)`. */
  const WindowHours: nat := 8

  /** The look-back the mail body announces as written. */
  const AnnouncedHoursAsWritten: nat := 2

  /** `limite_tempo`: the oldest `updated_at` that is still reported. */
  function Cutoff(now: int): (t: int)
    ensures now - t == WindowHours * 3600
  {
    now - 8 * 3600
  }

  /** The scan `updated_at >= :t`, in scan order. */
  function InWindow(items: seq<Item>, now: int): (r: seq<Item>)
    ensures |r| <= |items|
    ensures forall k :: 0 <= k < |r| ==> r[k] in items && r[k].updatedAt >= Cutoff(now)
  {
    if items == [] then []
    else
      var n := |items| - 1;
      var p := InWindow(items[..n], now);
      assert forall k :: 0 <= k < |p| ==> p[k] in items by {
        forall k | 0 <= k < |p| ensures p[k] in items {
          assert p[k] in items[..n];
        }
      }
      if items[n].updatedAt >= Cutoff(now) then p + [items[n]] else p
  }

  /** An item is in the window exactly when it is not older than the cutoff. */
  lemma {:induction false} InWindowComplete(items: seq<Item>, now: int, it: Item)
    ensures it in InWindow(items, now) <==> it in items && it.updatedAt >= Cutoff(now)
  {
    if items != [] {
      var n := |items| - 1;
      InWindowComplete(items[..n], now, it);
      assert items == items[..n] + [items[n]];
    }
  }

  /** The ids of some rows. */
  function Ids(rows: seq<Item>): set<string> {
    set k | 0 <= k < |rows| :: rows[k].idImovel
  }

  lemma IdsStep(rows: seq<Item>)
    requires rows != []
    ensures Ids(rows) == Ids(rows[..|rows| - 1]) + {rows[|rows| - 1].idImovel}
  {
    var n := |rows| - 1;
    var p := rows[..n];
    forall id | id in Ids(rows) ensures id in Ids(p) + {rows[n].idImovel} {
      var k :| 0 <= k < |rows| && rows[k].idImovel == id;
      if k < n {
        assert p[k] == rows[k];
      }
    }
    forall id | id in Ids(p) ensures id in Ids(rows) {
      var k :| 0 <= k < |p| && p[k].idImovel == id;
      assert rows[k] == p[k];
    }
  }

  /** `drop_duplicates(subset=["id_imovel"])`: a row is kept unless an earlier row has its id. */
  function DropDuplicates(rows: seq<Item>): (r: seq<Item>)
    ensures |r| <= |rows|
  {
    if rows == [] then []
    else
      var n := |rows| - 1;
      DropDuplicates(rows[..n]) + if rows[n].idImovel in Ids(rows[..n]) then [] else [rows[n]]
  }

  /** Deduplication keeps exactly the ids it is given. */
  lemma {:induction false} DropDuplicatesIds(rows: seq<Item>)
    ensures Ids(DropDuplicates(rows)) == Ids(rows)
  {
    if rows != [] {
      var n := |rows| - 1;
      var p := rows[..n];
      DropDuplicatesIds(p);
      IdsStep(rows);
      var d := DropDuplicates(p);
      if rows[n].idImovel in Ids(p) {
        assert DropDuplicates(rows) == d + [];
        assert d + [] == d;
      } else {
        var e := d + [rows[n]];
        assert e[..|e| - 1] == d;
        IdsStep(e);
      }
    }
  }

  /** After deduplication no two rows share an id. */
  lemma {:induction false} DropDuplicatesUnique(rows: seq<Item>)
    ensures forall i, j :: 0 <= i < j < |DropDuplicates(rows)| ==>
              DropDuplicates(rows)[i].idImovel != DropDuplicates(rows)[j].idImovel
  {
    if rows != [] {
      var n := |rows| - 1;
      var p := rows[..n];
      DropDuplicatesUnique(p);
      DropDuplicatesIds(p);
      var d := DropDuplicates(p);
      if rows[n].idImovel !in Ids(p) {
        var e := d + [rows[n]];
        forall i, j | 0 <= i < j < |e| ensures e[i].idImovel != e[j].idImovel {
          if j == |d| {
            assert e[i] == d[i];
            assert d[i].idImovel in Ids(d);
          } else {
            assert e[i] == d[i] && e[j] == d[j];
          }
        }
      } else {
        assert DropDuplicates(rows) == d + [];
        assert d + [] == d;
      }
    }
  }

  /** Row `i` is the first row with its id. */
  predicate IsFirst(rows: seq<Item>, i: int) {
    0 <= i < |rows| && forall j :: 0 <= j < i ==> rows[j].idImovel != rows[i].idImovel
  }

  /**
   * The rows deduplication keeps are exactly the first rows of their ids,
   * in their original order: the result is the subsequence of `rows` at
   * the positions `IsFirst` selects.
   */
  function Firsts(rows: seq<Item>, upto: nat): (r: seq<Item>)
    requires upto <= |rows|
  {
    if upto == 0 then []
    else Firsts(rows, upto - 1) + if IsFirst(rows, upto - 1) then [rows[upto - 1]] else []
  }

  lemma IsFirstOfPrefix(rows: seq<Item>, n: nat)
    requires n < |rows|
    ensures IsFirst(rows, n) <==> rows[n].idImovel !in Ids(rows[..n])
  {
    var p := rows[..n];
    if rows[n].idImovel in Ids(p) {
      var k :| 0 <= k < |p| && p[k].idImovel == rows[n].idImovel;
      assert rows[k] == p[k];
    } else {
      forall j | 0 <= j < n ensures rows[j].idImovel != rows[n].idImovel {
        assert p[j] == rows[j];
      }
    }
  }

  lemma {:induction false} FirstsOfPrefix(rows: seq<Item>, n: nat)
    requires n <= |rows|
    ensures Firsts(rows[..n], n) == Firsts(rows, n)
    decreases n
  {
    if n > 0 {
      FirstsOfPrefix(rows, n - 1);
      var p := rows[..n];
      assert p[..n - 1] == rows[..n - 1];
      FirstsOfPrefix(p, n - 1);
      assert IsFirst(p, n - 1) == IsFirst(rows, n - 1) by {
        forall j | 0 <= j < n - 1 ensures p[j] == rows[j] { }
      }
    }
  }

  /** Deduplication keeps the first row of every id, and nothing else, in order. */
  lemma {:induction false} DropDuplicatesKeepsFirsts(rows: seq<Item>)
    ensures DropDuplicates(rows) == Firsts(rows, |rows|)
  {
    if rows != [] {
      var n := |rows| - 1;
      var p := rows[..n];
      DropDuplicatesKeepsFirsts(p);
      FirstsOfPrefix(rows, n);
      IsFirstOfPrefix(rows, n);
    }
  }

  /** A report row set or nothing: `buscar_dados`. */
  function BuscarDados(items: seq<Item>, now: int): (r: Option<seq<Item>>)
    ensures r.None? <==> InWindow(items, now) == []
    ensures r.Some? ==> r.value != [] && r.value == DropDuplicates(InWindow(items, now))
  {
    var window := InWindow(items, now);
    if window == [] then None
    else
      DropDuplicatesIds(window);
      assert window[0].idImovel in Ids(window);
      Some(DropDuplicates(window))
  }

  /** Every id of the window reaches the report, once, with its first row. */
  lemma ReportedRows(items: seq<Item>, now: int)
    requires InWindow(items, now) != []
    ensures var rows := BuscarDados(items, now).value;
            && Ids(rows) == Ids(InWindow(items, now))
            && (forall i, j :: 0 <= i < j < |rows| ==> rows[i].idImovel != rows[j].idImovel)
            && rows == Firsts(InWindow(items, now), |InWindow(items, now)|)
  {
    var window := InWindow(items, now);
    DropDuplicatesIds(window);
    DropDuplicatesUnique(window);
    DropDuplicatesKeepsFirsts(window);
  }

  const SubjectPrefix: string := "\U{1F3E0} Im\U{F3}veis Curitiba - "
  const SubjectSuffix: string := " Novidades"

  /** The mail subject for a report of `n` rows. */
  function Subject(n: nat): (s: string)
    ensures StartsWith(s, SubjectPrefix)
  {
    SubjectPrefix + NatToString(n) + SubjectSuffix
  }

  /** The subject determines the count it announces. */
  lemma SubjectInjective(a: nat, b: nat)
    requires Subject(a) == Subject(b)
    ensures a == b
  {
    var sa, sb := NatToString(a), NatToString(b);
    assert |sa| == |sb|;
    assert sa == Subject(a)[|SubjectPrefix|..|SubjectPrefix| + |sa|];
    assert sb == Subject(b)[|SubjectPrefix|..|SubjectPrefix| + |sb|];
  }

  const Greeting: string := "Ol\U{E1}, seguem as <b>"
  const Middle: string := "</b>" + " novas oportunidades encontradas nas \U{FA}ltimas "

  /** The paragraph of the mail body, announcing `n` rows (in bold) from the last `hours` hours. */
  function Paragraph(n: nat, hours: nat): (s: string)
    ensures StartsWith(s, Greeting)
  {
    Greeting + NatToString(n) + Middle + NatToString(hours) + " horas."
  }

  /** A decimal rendering that is a strict prefix is followed by one of the longer one's digits. */
  lemma DigitAfterShorter(sa: string, sb: string, x: string, y: string)
    requires AllAsciiDigits(sb) && x != [] && sa + x == sb + y
    ensures |sa| < |sb| ==> IsAsciiDigit(x[0])
  {
    if |sa| < |sb| {
      assert (sa + x)[|sa|] == x[0];
      assert (sb + y)[|sa|] == sb[|sa|];
    }
  }

  /** Two decimal renderings followed by a non-digit at the same place are equal. */
  lemma DigitsEndAt(sa: string, sb: string, x: string, y: string)
    requires AllAsciiDigits(sa) && AllAsciiDigits(sb)
    requires x != [] && y != [] && !IsAsciiDigit(x[0]) && !IsAsciiDigit(y[0])
    requires sa + x == sb + y
    ensures sa == sb && x == y
  {
    DigitAfterShorter(sa, sb, x, y);
    DigitAfterShorter(sb, sa, y, x);
    assert sa == (sa + x)[..|sa|];
    assert sb == (sb + y)[..|sb|];
    assert x == (sa + x)[|sa|..];
    assert y == (sb + y)[|sb|..];
  }

  /** Text made of fixed parts around two decimal renderings determines both renderings. */
  lemma {:induction false} TwoRenderings(g: string, m: string, e: string, sa: string, ta: string, sb: string, tb: string)
    requires AllAsciiDigits(sa) && AllAsciiDigits(ta) && AllAsciiDigits(sb) && AllAsciiDigits(tb)
    requires m != [] && !IsAsciiDigit(m[0]) && e != [] && !IsAsciiDigit(e[0])
    requires g + sa + m + ta + e == g + sb + m + tb + e
    ensures sa == sb && ta == tb
  {
    var p, q := g + sa + m + ta + e, g + sb + m + tb + e;
    assert p[|g|..] == sa + (m + ta + e);
    assert q[|g|..] == sb + (m + tb + e);
    DigitsEndAt(sa, sb, m + ta + e, m + tb + e);
    assert (m + ta + e)[|m|..] == ta + e;
    assert (m + tb + e)[|m|..] == tb + e;
    DigitsEndAt(ta, tb, e, e);
  }

  /** The paragraph determines both the count and the hours it announces. */
  lemma ParagraphInjective(a: nat, ha: nat, b: nat, hb: nat)
    requires Paragraph(a, ha) == Paragraph(b, hb)
    ensures a == b && ha == hb
  {
    assert Middle[0] == '<';
    assert " horas."[0] == ' ';
    TwoRenderings(Greeting, Middle, " horas.", NatToString(a), NatToString(ha), NatToString(b), NatToString(hb));
  }

  /** The body as written: it announces two hours. */
  function BodyAsWritten(n: nat): string {
    Paragraph(n, AnnouncedHoursAsWritten)
  }

  /** The body announcing the query's own look-back. */
  function Body(n: nat): string {
    Paragraph(n, WindowHours)
  }

  /** The mail `enviar_email` sends: subject, body and the attached rows. */
  datatype Email = Email(subject: string, body: string, rows: seq<Item>)

  /** The script's entry point: a mail when the window holds something, otherwise nothing to report. */
  function CronReport(items: seq<Item>, now: int): (r: Option<Email>)
    ensures r.None? <==> InWindow(items, now) == []
    ensures r.Some? ==> r.value.rows != [] && r.value.subject == Subject(|r.value.rows|)
    ensures r.Some? ==> r.value.rows == BuscarDados(items, now).value
  {
    match BuscarDados(items, now)
    case None => None
    case Some(rows) => Some(Email(Subject(|rows|), Body(|rows|), rows))
  }

  /** The entry point as written, whose body announces two hours. */
  function CronReportAsWritten(items: seq<Item>, now: int): (r: Option<Email>)
    ensures r.None? <==> CronReport(items, now).None?
    ensures r.Some? ==> r.value.rows == CronReport(items, now).value.rows
                        && r.value.subject == CronReport(items, now).value.subject
  {
    match BuscarDados(items, now)
    case None => None
    case Some(rows) => Some(Email(Subject(|rows|), BodyAsWritten(|rows|), rows))
  }

  lemma {:induction false} FirstsWithin(rows: seq<Item>, upto: nat, it: Item)
    requires upto <= |rows|
    ensures it in Firsts(rows, upto) ==> it in rows
  {
    if upto > 0 {
      FirstsWithin(rows, upto - 1, it);
    }
  }

  /** The mail announces the query's look-back, and every row it carries is no older than that. */
  lemma ReportedWithinAnnounced(items: seq<Item>, now: int)
    requires InWindow(items, now) != []
    ensures var mail := CronReport(items, now).value;
            && mail.body == Paragraph(|mail.rows|, WindowHours)
            && forall k :: 0 <= k < |mail.rows| ==> now - mail.rows[k].updatedAt <= WindowHours * 3600
  {
    var window := InWindow(items, now);
    var rows := DropDuplicates(window);
    DropDuplicatesKeepsFirsts(window);
    forall k | 0 <= k < |rows| ensures rows[k] in window {
      FirstsWithin(window, |window|, rows[k]);
    }
  }

  /** As written, a row eight hours old is mailed under a body that announces two hours. */
  lemma BodyAsWrittenUnderstates(now: int, it: Item)
    requires it.updatedAt == now - 8 * 3600
    ensures CronReportAsWritten([it], now) == Some(Email(Subject(1), Paragraph(1, 2), [it]))
    ensures now - it.updatedAt > AnnouncedHoursAsWritten * 3600
  {
    var w := InWindow([it], now);
    assert [it][..0] == [];
    assert w == [it];
    assert Ids([it][..0]) == {};
    assert DropDuplicates([it]) == [it];
  }
}
