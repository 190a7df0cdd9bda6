/**
 * `redisvFormatCommand` (deps/hiredis/hiredis.c:316-530) for formats made of literals, spaces,
 * `%s`, `%b` and `%%`. The reference splits the format into pieces and cuts the piece list at
 * the spaces; interpolated bytes are pieces of their own, so they never cut an argument.
 */
module Template {
  import opened Common
  import opened Num
  import opened Format

  /** A variadic argument: a C string for `%s`, a pointer and length for `%b`. */
  datatype Arg = CString(bytes: string) | Binary(bytes: string)

  datatype Piece = Blank | Text(s: string)

  /** The conversions in `f` are `%s`, `%b` or `%%` and `ap` provides what they consume. */
  predicate Supported(f: string, ap: seq<Arg>) {
    if f == "" then true
    else if f[0] == '%' && |f| > 1 then
      match f[1]
      case 's' => ap != [] && ap[0].CString? && '\0' !in ap[0].bytes && Supported(f[2..], ap[1..])
      case 'b' => ap != [] && ap[0].Binary? && Supported(f[2..], ap[1..])
      case '%' => Supported(f[2..], ap)
      case _ => false
    else f[0] != '\0' && Supported(f[1..], ap)
  }

  /** The format with its arguments put in; a final lone '%' is a literal. */
  function Pieces(f: string, ap: seq<Arg>): seq<Piece>
    requires Supported(f, ap)
  {
    if f == "" then []
    else if f[0] == '%' && |f| > 1 then
      if f[1] == '%' then [Text("%")] + Pieces(f[2..], ap)
      else [Text(ap[0].bytes)] + Pieces(f[2..], ap[1..])
    else if f[0] == ' ' then [Blank] + Pieces(f[1..], ap)
    else [Text([f[0]])] + Pieces(f[1..], ap)
  }

  /** The number of text pieces before the first blank. */
  function Run(ps: seq<Piece>): (k: nat)
    ensures k <= |ps| && forall i :: 0 <= i < k ==> ps[i].Text?
    ensures k < |ps| ==> ps[k].Blank?
  {
    if ps == [] || ps[0].Blank? then 0 else 1 + Run(ps[1..])
  }

  function Concat(ps: seq<Piece>): string
    requires forall p :: p in ps ==> p.Text?
  {
    if ps == [] then "" else ps[0].s + Concat(ps[1..])
  }

  /** The words: maximal blank-free runs of pieces, each concatenated. */
  function Words(ps: seq<Piece>): seq<string>
    decreases |ps|
  {
    if ps == [] then []
    else if ps[0].Blank? then Words(ps[1..])
    else [Concat(ps[..Run(ps)])] + Words(ps[Run(ps)..])
  }

  /** The words still to come when `cur` has been collected for the current one. */
  function Pending(touched: bool, cur: string, ps: seq<Piece>): seq<string> {
    if touched then [cur + Concat(ps[..Run(ps)])] + Words(ps[Run(ps)..]) else Words(ps)
  }

  lemma PendingBlank(touched: bool, cur: string, ps: seq<Piece>)
    requires ps != [] && ps[0].Blank?
    ensures Pending(touched, cur, ps) == (if touched then [cur] else []) + Pending(false, "", ps[1..])
  {
    assert ps[..0] == [] && ps[0..] == ps;
    assert cur + "" == cur;
    assert Run(ps) == 0;
  }

  lemma PendingText(touched: bool, cur: string, ps: seq<Piece>)
    requires ps != [] && ps[0].Text?
    requires !touched ==> cur == ""
    ensures Pending(touched, cur, ps) == Pending(true, cur + ps[0].s, ps[1..])
  {
    var k := Run(ps[1..]);
    assert Run(ps) == k + 1;
    assert ps[..k + 1][1..] == ps[1..][..k];
    assert Concat(ps[..k + 1]) == ps[0].s + Concat(ps[1..][..k]);
    assert ps[k + 1..] == ps[1..][k..];
    if !touched {
      assert cur + ps[0].s == ps[0].s;
    }
    assert cur + (ps[0].s + Concat(ps[1..][..k])) == cur + ps[0].s + Concat(ps[1..][..k]);
  }

  lemma PendingEnd(touched: bool, cur: string)
    ensures Pending(touched, cur, []) == if touched then [cur] else []
  {
    assert cur + "" == cur;
  }

  /** A character of the format that is no conversion (hiredis.c:335-360) */
  lemma PlainStep(format: string, ap: seq<Arg>, c: nat, j: nat)
    requires c < |format| && j <= |ap| && Supported(format[c..], ap[j..])
    requires format[c] != '%' || c + 1 == |format|
    ensures Supported(format[c + 1..], ap[j..])
    ensures var ps := Pieces(format[c..], ap[j..]);
      ps != [] && ps[0] == (if format[c] == ' ' then Blank else Text([format[c]]))
      && ps[1..] == Pieces(format[c + 1..], ap[j..])
  {
    assert format[c..][1..] == format[c + 1..];
  }

  /** A conversion (hiredis.c:361-400) */
  lemma PercentStep(format: string, ap: seq<Arg>, c: nat, j: nat)
    requires c + 1 < |format| && j <= |ap| && Supported(format[c..], ap[j..]) && format[c] == '%'
    ensures var n := if format[c + 1] == '%' then 0 else 1;
      && j + n <= |ap| && Supported(format[c + 2..], ap[j + n..])
      && var ps := Pieces(format[c..], ap[j..]);
         ps != [] && ps[0] == Text(if n == 0 then "%" else ap[j].bytes)
         && ps[1..] == Pieces(format[c + 2..], ap[j + n..])
  {
    assert format[c..][2..] == format[c + 2..];
    if format[c + 1] != '%' {
      assert ap[j..][1..] == ap[j + 1..];
    }
  }

  /** `redisvFormatCommand`: the protocol form of the words of the format; lengths are C ints. */
  method FormatCommand(format: string, ap: seq<Arg>) returns (cmd: array<char>, totlen: nat)
    requires Supported(format, ap)
    requires Encodable(Words(Pieces(format, ap))) && |Encode(Words(Pieces(format, ap)))| <= INT_MAX
    ensures fresh(cmd) && cmd.Length == totlen + 1
    ensures cmd[..totlen] == Encode(Words(Pieces(format, ap))) && cmd[totlen] == '\0'
  {
    hide Concat, Run, Words, Pending, Pieces, Supported, Decimal, Encode, Bulks;
    ghost var goal := Words(Pieces(format, ap));
    PendingStart(Pieces(format, ap));
    var curargv: seq<string>, curarg, touched := [], "", false;
    totlen := 0;
    var c, j := 0, 0;
    assert format[0..] == format && ap[0..] == ap;
    NoBulks();
    while c < |format|
      invariant 0 <= c <= |format| && 0 <= j <= |ap|
      invariant Supported(format[c..], ap[j..])
      invariant goal == curargv + Pending(touched, curarg, Pieces(format[c..], ap[j..]))
      invariant !touched ==> curarg == ""
      invariant totlen == |Bulks(curargv)|
    {
      ghost var ps := Pieces(format[c..], ap[j..]);
      if format[c] != '%' || c + 1 == |format| {
        PlainStep(format, ap, c, j);
        if format[c] == ' ' {
          PendingBlank(touched, curarg, ps);
          if touched {
            var n := PutArgument(goal, curargv, curarg, Pending(false, "", ps[1..]));
            totlen := totlen + n;
            curargv, curarg, touched := curargv + [curarg], "", false;
          }
        } else {
          PendingText(touched, curarg, ps);
          curarg, touched := curarg + [format[c]], true;
        }
        c := c + 1;
      } else {
        PercentStep(format, ap, c, j);
        PendingText(touched, curarg, ps);
        if format[c + 1] == '%' {
          curarg := curarg + "%";
        } else {
          curarg := curarg + ap[j].bytes;
          j := j + 1;
        }
        touched := true;
        c := c + 2;
      }
    }
    NoPieces(format, ap, c, j);
    PendingEnd(touched, curarg);
    if touched {
      var n := PutArgument(goal, curargv, curarg, []);
      totlen := totlen + n;
      curargv := curargv + [curarg];
    }
    assert curargv == goal;
    LengthOfEncode(curargv);
    var digits := CountDigits(|curargv|);
    totlen := totlen + 1 + digits + 2;
    cmd := Build(curargv, totlen);
  }

  lemma PendingStart(ps: seq<Piece>)
    ensures Words(ps) == Pending(false, "", ps)
  {
  }

  lemma NoBulks()
    ensures Bulks([]) == ""
  {
  }

  lemma NoPieces(format: string, ap: seq<Arg>, c: nat, j: nat)
    requires c == |format| && j <= |ap|
    ensures Pieces(format[c..], ap[j..]) == []
  {
  }

  lemma LengthOfEncode(args: seq<string>)
    ensures |Encode(args)| == 1 + |Decimal(|args|)| + 2 + |Bulks(args)|
  {
    hide Decimal, Bulks;
  }

  /** The bytes one more argument takes. */
  method PutArgument(ghost goal: seq<string>, curargv: seq<string>, curarg: string, ghost rest: seq<string>)
    returns (n: nat)
    requires goal == curargv + ([curarg] + rest) && Encodable(goal)
    ensures |Bulks(curargv + [curarg])| == |Bulks(curargv)| + n
    ensures goal == (curargv + [curarg]) + rest
  {
    assert goal[|curargv|] == curarg;
    n := BulkLen(|curarg|);
    BulksAppend(curargv, [curarg]);
    assert [curarg][1..] == [];
  }

  /** Same pieces up to the texts: blanks in the same places. */
  predicate SameShape(a: seq<Piece>, b: seq<Piece>) {
    |a| == |b| && forall i :: 0 <= i < |a| ==> a[i].Blank? == b[i].Blank?
  }

  lemma {:induction false} PiecesShape(f: string, ap: seq<Arg>, bp: seq<Arg>)
    requires Supported(f, ap) && Supported(f, bp)
    ensures SameShape(Pieces(f, ap), Pieces(f, bp))
  {
    if f == "" {
    } else if f[0] == '%' && |f| > 1 {
      if f[1] == '%' {
        PiecesShape(f[2..], ap, bp);
      } else {
        PiecesShape(f[2..], ap[1..], bp[1..]);
      }
    } else {
      PiecesShape(f[1..], ap, bp);
    }
  }

  lemma {:induction false} WordsShape(a: seq<Piece>, b: seq<Piece>)
    requires SameShape(a, b)
    ensures |Words(a)| == |Words(b)|
    decreases |a|
  {
    if a == [] {
    } else if a[0].Blank? {
      WordsShape(a[1..], b[1..]);
    } else {
      RunShape(a, b);
      WordsShape(a[Run(a)..], b[Run(b)..]);
    }
  }

  lemma {:induction false} RunShape(a: seq<Piece>, b: seq<Piece>)
    requires SameShape(a, b)
    ensures Run(a) == Run(b)
  {
    if a != [] && a[0].Text? {
      RunShape(a[1..], b[1..]);
    }
  }

  /** The number of command arguments depends on the format alone: no interpolated byte splits one. */
  lemma InterpolationNeverSplits(f: string, ap: seq<Arg>, bp: seq<Arg>)
    requires Supported(f, ap) && Supported(f, bp)
    ensures |Words(Pieces(f, ap))| == |Words(Pieces(f, bp))|
  {
    PiecesShape(f, ap, bp);
    WordsShape(Pieces(f, ap), Pieces(f, bp));
  }
}
