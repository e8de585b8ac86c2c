/** The canonical printer as the source runs it: appending to a byte vector, in loops. */
module JsonWriter {
  import opened Bytes
  import opened CanonicalJson

  lemma Associative(a: seq<Byte>, b: seq<Byte>, c: seq<Byte>)
    ensures (a + b) + c == a + (b + c)
  {
  }

  class ByteVec {
    var bytes: seq<Byte>

    constructor ()
      ensures bytes == []
    {
      bytes := [];
    }

    method Extend(more: seq<Byte>)
      modifies this
      ensures bytes == old(bytes) + more
    {
      bytes := bytes + more;
    }
  }

  lemma {:induction false} PrintItemsSnoc(items: seq<Json>, last: Json)
    ensures PrintItems(items + [last]) == PrintItems(items) + Separator(|items|) + Print(last)
  {
    if |items| == 0 {
      assert items + [last] == [last];
    } else {
      PrintItemsSnoc(items[1..], last);
      assert (items + [last])[1..] == items[1..] + [last];
    }
  }

  lemma {:induction false} JoinMembersSnoc(ms: seq<Keyed<seq<Byte>>>, last: Keyed<seq<Byte>>)
    ensures JoinMembers(ms + [last]) == JoinMembers(ms) + Separator(|ms|) + PrintMember(last)
  {
    if |ms| == 0 {
      assert ms + [last] == [last];
    } else {
      JoinMembersSnoc(ms[1..], last);
      assert (ms + [last])[1..] == ms[1..] + [last];
    }
  }

  lemma {:induction false} InsertThenPrint(m: Keyed<Json>, s: seq<Keyed<Json>>)
    ensures PrintMembers(Insert(m, s)) == Insert(Keyed(m.key, Print(m.value)), PrintMembers(s))
  {
    if |s| > 0 && !LexLess(m.key, s[0].key) {
      InsertThenPrint(m, s[1..]);
      assert Insert(m, s)[1..] == Insert(m, s[1..]);
    } else {
      assert ([m] + s)[1..] == s;
    }
  }

  lemma {:induction false} SortThenPrint(s: seq<Keyed<Json>>)
    ensures PrintMembers(SortByKey(s)) == SortByKey(PrintMembers(s))
  {
    if |s| > 0 {
      SortThenPrint(s[1..]);
      InsertThenPrint(s[0], SortByKey(s[1..]));
    }
  }

  /** The separator before every element but the first. */
  function Separator(index: nat): (r: seq<Byte>)
  {
    if index == 0 then [] else [COMMA]
  }

  lemma OneMoreItem(before: seq<Byte>, items: seq<Json>, index: nat)
    requires index < |items|
    ensures before + PrintItems(items[..index]) + Separator(index) + Print(items[index])
         == before + PrintItems(items[..index + 1])
  {
    PrintItemsSnoc(items[..index], items[index]);
    assert items[..index + 1] == items[..index] + [items[index]];
    Associative(before, PrintItems(items[..index]), Separator(index));
    Associative(before, PrintItems(items[..index]) + Separator(index), Print(items[index]));
  }

  lemma OneMoreMember(before: seq<Byte>, texts: seq<Keyed<seq<Byte>>>, index: nat)
    requires index < |texts|
    ensures before + JoinMembers(texts[..index]) + Separator(index) + PrintMember(texts[index])
         == before + JoinMembers(texts[..index + 1])
  {
    JoinMembersSnoc(texts[..index], texts[index]);
    assert texts[..index + 1] == texts[..index] + [texts[index]];
    Associative(before, JoinMembers(texts[..index]), Separator(index));
    Associative(before, JoinMembers(texts[..index]) + Separator(index), PrintMember(texts[index]));
  }

  method WriteItems(items: seq<Json>, output: ByteVec)
    requires forall i | 0 <= i < |items| :: WellFormed(items[i])
    modifies output
    ensures output.bytes == old(output.bytes) + PrintItems(items)
    decreases items, 0
  {
    assert PrintItems(items[..0]) == [];
    hide Print, PrintItems;
    ghost var before := output.bytes;
    for index := 0 to |items|
      invariant output.bytes == before + PrintItems(items[..index])
    {
      output.Extend(Separator(index));
      WriteCanonicalJson(items[index], output);
      OneMoreItem(before, items, index);
    }
    assert items[..|items|] == items;
  }

  method WriteMember(member: Keyed<Json>, output: ByteVec)
    requires WellFormed(member.value)
    modifies output
    ensures output.bytes == old(output.bytes) + PrintMember(Keyed(member.key, Print(member.value)))
    decreases member, 0
  {
    output.Extend(PrintString(member.key));
    output.Extend([COLON]);
    WriteCanonicalJson(member.value, output);
  }

  method WriteInOrder(sorted: seq<Keyed<Json>>, output: ByteVec, ghost members: seq<Keyed<Json>>)
    requires forall i | 0 <= i < |sorted| :: sorted[i] in members && WellFormed(sorted[i].value)
    modifies output
    ensures output.bytes == old(output.bytes) + JoinMembers(PrintMembers(sorted))
    decreases members, 0
  {
    ghost var before, texts := output.bytes, PrintMembers(sorted);
    assert JoinMembers(texts[..0]) == [];
    hide Print, JoinMembers, PrintMembers, PrintMember, WellFormed;
    for index := 0 to |sorted|
      invariant output.bytes == before + JoinMembers(texts[..index])
    {
      output.Extend(Separator(index));
      WriteMember(sorted[index], output);
      OneMoreMember(before, texts, index);
    }
    assert texts[..|texts|] == texts;
  }

  method WriteMembers(members: seq<Keyed<Json>>, output: ByteVec)
    requires DistinctKeys(members) && forall i | 0 <= i < |members| :: WellFormed(members[i].value)
    modifies output
    ensures output.bytes == old(output.bytes) + JoinMembers(SortByKey(PrintMembers(members)))
    decreases members, 1
  {
    SortThenPrint(members);
    WriteInOrder(SortByKey(members), output, members);
  }

  /** Appends the canonical text of `value`: arrays in order, object members in key order. */
  method WriteCanonicalJson(value: Json, output: ByteVec)
    requires WellFormed(value)
    modifies output
    ensures output.bytes == old(output.bytes) + Print(value)
    decreases value, 1
  {
    ghost var before := output.bytes;
    match value
    case Array(items) =>
      output.Extend([OPEN_BRACKET]);
      WriteItems(items, output);
      output.Extend([CLOSE_BRACKET]);
      Associative(before, [OPEN_BRACKET], PrintItems(items));
      Associative(before, [OPEN_BRACKET] + PrintItems(items), [CLOSE_BRACKET]);
    case Object(members) =>
      output.Extend([OPEN_BRACE]);
      WriteMembers(members, output);
      output.Extend([CLOSE_BRACE]);
      ghost var text := JoinMembers(SortByKey(PrintMembers(members)));
      Associative(before, [OPEN_BRACE], text);
      Associative(before, [OPEN_BRACE] + text, [CLOSE_BRACE]);
    case scalar =>
      output.Extend(Print(scalar));
  }
}
