/** Reversing a marker-free hunk body repeatedly: reversal normalizes the order of the
    lines in a change run once, and from then on is its own inverse. */
module HunkInvolution {
  import opened DiffText
  import opened HunkReversal
  import opened Seqs

  predicate MarkerFree(body: seq<string>) {
    forall i :: 0 <= i < |body| ==> !IsMarker(body[i])
  }

  predicate ChangeNext(body: seq<string>) {
    body != [] && IsChange(body[0])
  }

  /** Each change run that has lines of both signs begins with `-` and ends with `+`:
      wherever a second change group follows in the same run, the first group has a
      `-` line and the second one a `+` line. */
  predicate Canonical(body: seq<string>)
    decreases |body|
  {
    if body == [] then true
    else if IsChange(body[0]) then
      var minus := TakeRun(body, '-');
      var plus := TakeRun(minus.rest, '+');
      && (ChangeNext(plus.rest) ==> minus.texts != [] && SecondRun(plus.rest) != [])
      && Canonical(plus.rest)
    else Canonical(body[1..])
  }

  /** The texts of the `+` run of the group that `body` begins with. */
  function SecondRun(body: seq<string>): seq<string> {
    TakeRun(TakeRun(body, '-').rest, '+').texts
  }

  lemma PrefixedCons(sign: char, text: string, texts: seq<string>)
    ensures Prefixed(sign, [text] + texts) == [[sign] + text] + Prefixed(sign, texts)
  {
    assert ([text] + texts)[1..] == texts;
  }

  lemma TakeRunCons(sign: char, text: string, rest: seq<string>)
    requires rest == [] || !IsMarker(rest[0])
    ensures var r := TakeRun(rest, sign);
      TakeRun([[sign] + text] + rest, sign) == Run([text] + r.texts, r.marked, r.rest)
  {
    var body := [[sign] + text] + rest;
    assert body[1..] == rest;
    assert body[0][1..] == text;
    assert Width(body) == 1;
  }

  lemma {:induction false} PlainRun(body: seq<string>, sign: char)
    requires MarkerFree(body)
    ensures var r := TakeRun(body, sign);
      !r.marked && MarkerFree(r.rest) && body == Prefixed(sign, r.texts) + r.rest
  {
    if body != [] && Starts(body[0], sign) {
      var text, rest := body[0][1..], body[1..];
      assert body[0] == [sign] + text;
      assert body == [body[0]] + rest;
      PlainRun(rest, sign);
      PlainRunOne(body, sign, text, rest);
    }
  }

  lemma PlainRunOne(body: seq<string>, sign: char, text: string, rest: seq<string>)
    requires body == [[sign] + text] + rest && (rest == [] || !IsMarker(rest[0]))
    requires var r := TakeRun(rest, sign); !r.marked && rest == Prefixed(sign, r.texts) + r.rest
    ensures var r := TakeRun(body, sign);
      && !r.marked && r.rest == TakeRun(rest, sign).rest
      && body == Prefixed(sign, r.texts) + r.rest
  {
    var r := TakeRun(rest, sign);
    TakeRunCons(sign, text, rest);
    PrefixedCons(sign, text, r.texts);
    Assoc([[sign] + text], Prefixed(sign, r.texts), r.rest);
  }

  /** A run written out in front of `rest` is read back together with what continues it. */
  lemma {:induction false} ReadBack(sign: char, texts: seq<string>, rest: seq<string>)
    requires sign != '\\'
    requires rest == [] || !IsMarker(rest[0])
    ensures var r := TakeRun(rest, sign);
      TakeRun(Prefixed(sign, texts) + rest, sign) == Run(texts + r.texts, r.marked, r.rest)
  {
    if texts == [] {
      Whole(rest);
      Whole(TakeRun(rest, sign).texts);
    } else {
      PlainFront(sign, texts[1..], rest);
      ReadBack(sign, texts[1..], rest);
      PrefixedFront(sign, texts, rest);
      ReadBackOne(sign, texts, Prefixed(sign, texts) + rest, Prefixed(sign, texts[1..]) + rest, TakeRun(rest, sign));
    }
  }

  lemma ReadBackOne(sign: char, texts: seq<string>, lines: seq<string>, later: seq<string>, r: Run)
    requires texts != [] && lines == [[sign] + texts[0]] + later
    requires later == [] || !IsMarker(later[0])
    requires TakeRun(later, sign) == Run(texts[1..] + r.texts, r.marked, r.rest)
    ensures TakeRun(lines, sign) == Run(texts + r.texts, r.marked, r.rest)
  {
    var first, more := [texts[0]], texts[1..];
    TakeRunCons(sign, texts[0], later);
    assert texts == first + more;
    Assoc(first, more, r.texts);
  }

  lemma PrefixedFront(sign: char, texts: seq<string>, rest: seq<string>)
    requires texts != []
    ensures Prefixed(sign, texts) + rest == [[sign] + texts[0]] + (Prefixed(sign, texts[1..]) + rest)
  {
    Assoc([[sign] + texts[0]], Prefixed(sign, texts[1..]), rest);
  }

  lemma PlainFront(sign: char, texts: seq<string>, rest: seq<string>)
    requires sign != '\\'
    requires rest == [] || !IsMarker(rest[0])
    ensures var lines := Prefixed(sign, texts) + rest; lines == [] || !IsMarker(lines[0])
  {
    if texts == [] {
      Whole(rest);
    } else {
      PrefixedFront(sign, texts, rest);
    }
  }

  /** The reversal of a body that begins with the group of `minus` and `plus`. */
  lemma ReversedOfGroup(body: seq<string>, minus: Run, plus: Run)
    requires ChangeNext(body)
    requires minus == TakeRun(body, '-') && plus == TakeRun(minus.rest, '+')
    requires !minus.marked && !plus.marked
    ensures Reversed(body) == Prefixed('-', plus.texts) + (Prefixed('+', minus.texts) + Reversed(plus.rest))
  {
    var p, m, rest := Prefixed('-', plus.texts), Prefixed('+', minus.texts), Reversed(plus.rest);
    Whole(p);
    Whole(m);
    assert Reversed(body) == (p + m) + rest;
    Assoc(p, m, rest);
  }

  lemma {:induction false} PrefixedLines(sign: char, texts: seq<string>)
    ensures forall line :: line in Prefixed(sign, texts) ==> Starts(line, sign)
  {
    if texts != [] {
      PrefixedLines(sign, texts[1..]);
    }
  }

  lemma ConcatMarkerFree(a: seq<string>, b: seq<string>)
    requires MarkerFree(a) && MarkerFree(b)
    ensures MarkerFree(a + b)
  {
  }

  lemma PrefixedMarkerFree(sign: char, texts: seq<string>)
    requires sign != '\\'
    ensures MarkerFree(Prefixed(sign, texts))
  {
    PrefixedLines(sign, texts);
    var lines := Prefixed(sign, texts);
    assert forall i :: 0 <= i < |lines| ==> lines[i] in lines;
  }

  lemma {:induction false} ReversedMarkerFree(body: seq<string>)
    requires MarkerFree(body)
    ensures MarkerFree(Reversed(body))
    decreases |body|
  {
    if body == [] {
    } else if IsChange(body[0]) {
      var minus := TakeRun(body, '-');
      var plus := TakeRun(minus.rest, '+');
      PlainRun(body, '-');
      PlainRun(minus.rest, '+');
      ReversedMarkerFree(plus.rest);
      PrefixedMarkerFree('-', plus.texts);
      PrefixedMarkerFree('+', minus.texts);
      ReversedOfGroup(body, minus, plus);
      ConcatMarkerFree(Prefixed('+', minus.texts), Reversed(plus.rest));
      ConcatMarkerFree(Prefixed('-', plus.texts), Prefixed('+', minus.texts) + Reversed(plus.rest));
    } else {
      ReversedMarkerFree(body[1..]);
      ConcatMarkerFree([body[0]], Reversed(body[1..]));
    }
  }

  /** A change group of a marker-free body, written out. */
  lemma PlainGroup(body: seq<string>)
    requires MarkerFree(body) && ChangeNext(body)
    ensures var minus := TakeRun(body, '-'); var plus := TakeRun(minus.rest, '+');
      && body == Prefixed('-', minus.texts) + (Prefixed('+', plus.texts) + plus.rest)
      && Reversed(body) == Prefixed('-', plus.texts) + (Prefixed('+', minus.texts) + Reversed(plus.rest))
      && MarkerFree(plus.rest) && MarkerFree(Reversed(plus.rest))
      && |plus.rest| < |body|
      && (ChangeNext(plus.rest) ==> Starts(plus.rest[0], '-') && plus.texts != [])
  {
    var minus := TakeRun(body, '-');
    var plus := TakeRun(minus.rest, '+');
    PlainRun(body, '-');
    PlainRun(minus.rest, '+');
    ReversedMarkerFree(plus.rest);
    ReversedOfGroup(body, minus, plus);
  }

  /** The group that `-p`, `+m` and `rest` form, when `rest` does not run on into it. */
  lemma GroupReadBack(p: seq<string>, m: seq<string>, rest: seq<string>)
    requires p != [] || m != []
    requires MarkerFree(rest)
    requires rest == [] || !Starts(rest[0], '+')
    requires rest != [] && Starts(rest[0], '-') ==> m != []
    ensures Reversed(Prefixed('-', p) + (Prefixed('+', m) + rest))
         == Prefixed('-', m) + (Prefixed('+', p) + Reversed(rest))
  {
    var tail := Prefixed('+', m) + rest;
    var body := Prefixed('-', p) + tail;
    if m != [] {
      assert tail[0] == "+" + m[0];
    } else {
      assert tail == rest;
    }
    ReadBack('-', p, tail);
    ReadBack('+', m, rest);
    assert p + [] == p && m + [] == m;
    if p != [] {
      assert body[0] == "-" + p[0];
    } else {
      assert body == tail;
    }
    ReversedOfGroup(body, TakeRun(body, '-'), TakeRun(tail, '+'));
  }

  /** What a reversed change run begins with. */
  lemma ReversedFirst(body: seq<string>)
    requires MarkerFree(body) && body != []
    ensures Reversed(body) != []
    ensures IsChange(body[0]) && SecondRun(body) != [] ==> Starts(Reversed(body)[0], '-')
    ensures IsChange(body[0]) && SecondRun(body) == [] ==> Starts(Reversed(body)[0], '+')
    ensures !IsChange(body[0]) ==> Reversed(body)[0] == body[0]
  {
    if IsChange(body[0]) {
      PlainGroup(body);
      var minus := TakeRun(body, '-');
      if SecondRun(body) != [] {
        assert Reversed(body)[0] == "-" + SecondRun(body)[0];
      } else {
        assert Reversed(body)[0] == "+" + minus.texts[0];
      }
    }
  }

  lemma LongerFirstRun(texts: seq<string>, body: seq<string>)
    requires body == [] || !IsMarker(body[0])
    ensures SecondRun(Prefixed('-', texts) + body) == SecondRun(body)
  {
    ReadBack('-', texts, body);
  }

  /** A run that begins with `+` and has a `-` comes back beginning with `-`. */
  lemma PlusFirst(body: seq<string>)
    requires MarkerFree(body) && ChangeNext(body)
    requires TakeRun(body, '-').texts == []
    requires ChangeNext(TakeRun(body, '+').rest)
    ensures Reversed(Reversed(body)) != body
  {
    PlainGroup(body);
    var p, rest := SecondRun(body), TakeRun(body, '+').rest;
    ReversedSecondRun(rest);
    var once := Reversed(body);
    Whole(Reversed(rest));
    ReversedMarkerFree(body);
    ReversedMarkerFree(rest);
    LongerFirstRun(p, Reversed(rest));
    assert once[0] == Prefixed('-', p)[0];
    ReversedFirst(once);
  }

  /** A run that ends with `-` and has a `+` comes back with a `-` too early. */
  lemma MinusLast(body: seq<string>)
    requires MarkerFree(body) && ChangeNext(body)
    requires var minus := TakeRun(body, '-'); var plus := TakeRun(minus.rest, '+');
      minus.texts != [] && ChangeNext(plus.rest) && SecondRun(plus.rest) == []
    ensures Reversed(Reversed(body)) != body
  {
    PlainGroup(body);
    var m := TakeRun(body, '-').texts;
    var p := SecondRun(body);
    var rest := TakeRun(TakeRun(body, '-').rest, '+').rest;
    PlainGroup(rest);
    var m' := TakeRun(rest, '-').texts;
    ReversedMarkerFree(body);
    ReversedFirst(rest);
    var once := Reversed(body);
    var tail := Prefixed('+', m) + Reversed(rest);
    assert tail[0] == ['+'] + m[0];
    ReadBack('-', p, tail);
    ReadBack('+', m, Reversed(rest));
    assert p + [] == p;
    assert |SecondRun(once)| > |m|;
    assert once[0] == ['-'] + p[0];
    PlainGroup(once);
    PrefixedAt('-', SecondRun(once), |m|);
    assert Reversed(once)[|m|][0] == '-';
    assert body[|m|][0] == '+';
  }

  /** Reversing twice restores a marker-free body exactly when it is canonical. */
  lemma {:induction false} TwiceIsIdentity(body: seq<string>)
    requires MarkerFree(body)
    ensures Reversed(Reversed(body)) == body <==> Canonical(body)
    decreases |body|
  {
    if body == [] {
    } else if IsChange(body[0]) {
      PlainGroup(body);
      var minus := TakeRun(body, '-');
      var plus := TakeRun(minus.rest, '+');
      var rest := plus.rest;
      TwiceIsIdentity(rest);
      if ChangeNext(rest) && minus.texts == [] {
        PlusFirst(body);
      } else if ChangeNext(rest) && SecondRun(rest) == [] {
        MinusLast(body);
      } else {
        if rest != [] {
          ReversedFirst(rest);
        }
        GroupReadBack(plus.texts, minus.texts, Reversed(rest));
        SameSplit(Prefixed('-', minus.texts), Prefixed('+', plus.texts) + Reversed(Reversed(rest)),
                  Prefixed('-', minus.texts), Prefixed('+', plus.texts) + rest);
        SameSplit(Prefixed('+', plus.texts), Reversed(Reversed(rest)), Prefixed('+', plus.texts), rest);
      }
    } else {
      TwiceIsIdentity(body[1..]);
      assert Reversed(body)[1..] == Reversed(body[1..]);
      SameSplit([body[0]], Reversed(Reversed(body[1..])), [body[0]], body[1..]);
    }
  }

  /** Lines of one sign added in front of a run that begins with that sign. */
  lemma LongerRunCanonical(sign: char, texts: seq<string>, body: seq<string>)
    requires sign == '-' || sign == '+'
    requires MarkerFree(body) && Canonical(body)
    requires body != [] && Starts(body[0], '+')
    ensures Canonical(Prefixed(sign, texts) + body)
  {
    var longer := Prefixed(sign, texts) + body;
    if texts == [] {
      assert longer == body;
    } else {
      assert longer[0] == [sign] + texts[0];
      ReadBack(sign, texts, body);
      assert texts + [] == texts;
    }
  }

  lemma MoreMinusCanonical(texts: seq<string>, body: seq<string>)
    requires MarkerFree(body) && Canonical(body) && ChangeNext(body)
    ensures Canonical(Prefixed('-', texts) + body)
  {
    var longer := Prefixed('-', texts) + body;
    if texts == [] {
      assert longer == body;
    } else {
      assert longer[0] == "-" + texts[0];
      ReadBack('-', texts, body);
    }
  }

  /** A canonical change group in front of a canonical body. */
  lemma GroupCanonical(p: seq<string>, m: seq<string>, rest: seq<string>)
    requires p != [] || m != []
    requires MarkerFree(rest) && Canonical(rest)
    requires ChangeNext(rest) ==> Starts(rest[0], '-') && p != [] && m != [] && SecondRun(rest) != []
    ensures Canonical(Prefixed('-', p) + (Prefixed('+', m) + rest))
  {
    var tail := Prefixed('+', m) + rest;
    var body := Prefixed('-', p) + tail;
    if m != [] {
      assert tail[0] == "+" + m[0];
    } else {
      assert tail == rest;
    }
    ReadBack('-', p, tail);
    ReadBack('+', m, rest);
    assert p + [] == p && m + [] == m;
    if p != [] {
      assert body[0] == "-" + p[0];
    } else {
      assert body == tail;
    }
  }

  /** What reversal produces is canonical. */
  lemma {:induction false} ReversedCanonical(body: seq<string>)
    requires MarkerFree(body)
    ensures Canonical(Reversed(body))
    decreases |body|
  {
    if body == [] {
    } else if IsChange(body[0]) {
      PlainGroup(body);
      var m, p := TakeRun(body, '-').texts, SecondRun(body);
      var rest := TakeRun(TakeRun(body, '-').rest, '+').rest;
      var tail := Prefixed('+', m) + Reversed(rest);
      PrefixedMarkerFree('+', m);
      ConcatMarkerFree(Prefixed('+', m), Reversed(rest));
      ReversedCanonical(rest);
      if rest != [] {
        ReversedFirst(rest);
      }
      if ChangeNext(rest) {
        if SecondRun(rest) == [] {
          LongerRunCanonical('+', m, Reversed(rest));
          MoreMinusCanonical(p, tail);
        } else if m == [] {
          assert tail == Reversed(rest);
          MoreMinusCanonical(p, tail);
        } else {
          ReversedSecondRun(rest);
          GroupCanonical(p, m, Reversed(rest));
        }
      } else {
        GroupCanonical(p, m, Reversed(rest));
      }
    } else {
      ReversedCanonical(body[1..]);
      assert Reversed(body)[1..] == Reversed(body[1..]);
    }
  }

  lemma ReversedSecondRun(body: seq<string>)
    requires MarkerFree(body) && ChangeNext(body)
    requires TakeRun(body, '-').texts != []
    ensures SecondRun(Reversed(body)) != []
  {
    PlainGroup(body);
    var m, p := TakeRun(body, '-').texts, SecondRun(body);
    var tail := Prefixed('+', m) + Reversed(TakeRun(TakeRun(body, '-').rest, '+').rest);
    assert tail[0] == "+" + m[0];
    ReadBack('-', p, tail);
  }

  /** Three reversals equal one. */
  lemma ThriceIsOnce(body: seq<string>)
    requires MarkerFree(body)
    ensures Reversed(Reversed(Reversed(body))) == Reversed(body)
  {
    ReversedMarkerFree(body);
    ReversedCanonical(body);
    TwiceIsIdentity(Reversed(body));
  }

  /** On marker-free bodies the swap of the two sides is unconditional. */
  lemma PlainSidesSwap(body: seq<string>)
    requires MarkerFree(body)
    ensures Side(Reversed(body), '-') == Side(body, '+')
    ensures Side(Reversed(body), '+') == Side(body, '-')
  {
    PlainMarkers(body);
    SidesSwap(body);
  }

  lemma {:induction false} PlainMarkers(body: seq<string>)
    requires MarkerFree(body)
    ensures SingleMarkers(body) && MarkersEndRuns(body)
  {
    if |body| >= 2 {
      PlainMarkers(body[1..]);
    }
  }
}
