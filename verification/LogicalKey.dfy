/** The key by which two queued edits are recognised as edits of one field. */
module LogicalKey {
  /** A field of the payload that identifies what is edited, as name and value; given in the order of their names. */
  datatype Entry = Entry(name: string, value: string)

  const AMP: char := '&'
  const EQUALS: char := '='
  const BAR: char := '|'

  function EntryText(e: Entry): string { e.name + [EQUALS] + e.value }

  function Joined(entries: seq<Entry>): string {
    if entries == [] then ""
    else if |entries| == 1 then EntryText(entries[0])
    else EntryText(entries[0]) + [AMP] + Joined(entries[1..])
  }

  function Key(kind: string, entries: seq<Entry>): string { kind + [BAR] + Joined(entries) }

  /** Names, and values such as row ids and field names, that hold none of the separators. */
  predicate Unambiguous(entries: seq<Entry>) {
    forall i :: 0 <= i < |entries| ==> EQUALS !in entries[i].name && AMP !in entries[i].name && AMP !in entries[i].value
  }

  function FirstIndex(s: string, c: char): nat {
    if s == [] || s[0] == c then 0 else 1 + FirstIndex(s[1..], c)
  }

  lemma {:induction false} FirstIndexIs(x: string, r: string, c: char)
    requires c !in x
    ensures FirstIndex(x + [c] + r, c) == |x|
  {
    if x != [] {
      assert (x + [c] + r)[0] == x[0] && x[0] in x;
      assert (x + [c] + r)[1..] == x[1..] + [c] + r;
      FirstIndexIs(x[1..], r, c);
    }
  }

  /** The first separator ends the first part. */
  lemma SplitsOnce(x: string, r: string, y: string, s: string, c: char)
    requires c !in x && c !in y && x + [c] + r == y + [c] + s
    ensures x == y && r == s
  {
    FirstIndexIs(x, r, c);
    FirstIndexIs(y, s, c);
    var all := x + [c] + r;
    assert all[..|x|] == x && all[..|y|] == y && all[|x| + 1..] == r && all[|y| + 1..] == s;
  }

  lemma EntryUnambiguous(e: Entry)
    requires Unambiguous([e])
    ensures AMP !in EntryText(e) && EQUALS in EntryText(e)
  {
    assert [e][0] == e && EntryText(e)[|e.name|] == EQUALS;
  }

  lemma EntryIsItsText(e: Entry, f: Entry)
    requires Unambiguous([e]) && Unambiguous([f]) && EntryText(e) == EntryText(f)
    ensures e == f
  {
    assert [e][0] == e && [f][0] == f;
    SplitsOnce(e.name, e.value, f.name, f.value, EQUALS);
  }

  lemma {:induction false} JoinedIsInjective(a: seq<Entry>, b: seq<Entry>)
    requires Unambiguous(a) && Unambiguous(b) && Joined(a) == Joined(b)
    ensures a == b
    decreases |a|
  {
    if a != [] { FirstEntry(a); }
    if b != [] { FirstEntry(b); }
    if a != [] && b != [] {
      var ta, tb := EntryText(a[0]), EntryText(b[0]);
      if |a| == 1 && |b| == 1 {
        EntryIsItsText(a[0], b[0]);
      } else if |a| > 1 && |b| > 1 {
        SplitsOnce(ta, Joined(a[1..]), tb, Joined(b[1..]), AMP);
        EntryIsItsText(a[0], b[0]);
        JoinedIsInjective(a[1..], b[1..]);
        assert a == [a[0]] + a[1..] && b == [b[0]] + b[1..];
      }
    }
  }

  lemma FirstEntry(a: seq<Entry>)
    requires a != [] && Unambiguous(a)
    ensures Unambiguous([a[0]]) && Unambiguous(a[1..]) && AMP !in EntryText(a[0]) && EntryText(a[0]) != []
    ensures AMP in Joined(a) <==> |a| > 1
    ensures Joined(a) != []
  {
    assert forall i :: 0 <= i < |a[1..]| ==> a[1..][i] == a[i + 1];
    assert [a[0]][0] == a[0];
    EntryUnambiguous(a[0]);
    if |a| > 1 { assert Joined(a)[|EntryText(a[0])|] == AMP; }
  }

  /**
   Two edits get the same key exactly when they are of the same kind and every
   identifying field agrees. This rests on ids and names without the separators.
   */
  lemma KeyIdentifiesField(kind: string, a: seq<Entry>, kind': string, b: seq<Entry>)
    requires BAR !in kind && BAR !in kind' && Unambiguous(a) && Unambiguous(b)
    ensures Key(kind, a) == Key(kind', b) <==> kind == kind' && a == b
  {
    if Key(kind, a) == Key(kind', b) {
      SplitsOnce(kind, Joined(a), kind', Joined(b), BAR);
      JoinedIsInjective(a, b);
    }
  }

  /** With a separator inside a value, two different fields can share a key. */
  lemma SeparatorInValueCollides()
    ensures var a, b := [Entry("a", "1&b=2")], [Entry("a", "1"), Entry("b", "2")];
            a != b && Key("save", a) == Key("save", b) == "save|a=1&b=2"
  {
    var a, b := [Entry("a", "1&b=2")], [Entry("a", "1"), Entry("b", "2")];
    assert b[1..] == [Entry("b", "2")];
    assert Joined(b) == EntryText(b[0]) + [AMP] + EntryText(Entry("b", "2"));
    assert Joined(a) == "a=1&b=2";
    assert Joined(b) == "a=1&b=2";
  }
}
