/** Fields of account buffers: reading them, and what a write in place changes. */
module Layout {
  import opened Bytes
  import opened Governance

  function KeyAt(data: seq<u8>, at: nat): Key
    requires at + 32 <= |data|
  {
    Key(data[at..at + 32])
  }

  function NumberAt(data: seq<u8>, at: nat, width: nat): nat
    requires at + width <= |data|
  {
    FromLittleEndian(data[at..at + width])
  }

  /** `chunks(32).take(count)` of the member area at `at`. */
  function MembersAt(data: seq<u8>, at: nat, count: nat): seq<Key>
    requires at + 32 * MAX_MEMBERS <= |data|
  {
    seq(if count <= MAX_MEMBERS then count else MAX_MEMBERS,
        i requires 0 <= i < MAX_MEMBERS => KeyAt(data, at + 32 * i))
  }

  /** A number written in place reads back. */
  lemma NumberWritten(data: seq<u8>, at: nat, value: nat, width: nat)
    requires at + width <= |data| && value < Pow256(width)
    ensures NumberAt(Overwrite(data, at, LittleEndian(value, width)), at, width) == value
  {
    OverwriteReads(data, at, LittleEndian(value, width), 0, 0);
    LittleEndianRoundTrip(value, width);
  }

  /** A field beside a write is as before. */
  lemma FieldBeside(data: seq<u8>, at: nat, bytes: seq<u8>, field: nat, width: nat)
    requires at + |bytes| <= |data| && field + width <= |data|
    requires field + width <= at || at + |bytes| <= field
    ensures Overwrite(data, at, bytes)[field..field + width] == data[field..field + width]
  {
    OverwriteReads(data, at, bytes, field, field + width);
  }

  lemma SameNumber(a: seq<u8>, b: seq<u8>, at: nat, width: nat)
    requires at + width <= |a| && at + width <= |b| && NumberAt(a, at, width) == NumberAt(b, at, width)
    ensures a[at..at + width] == b[at..at + width]
  {
    FromLittleEndianRoundTrip(a[at..at + width]);
    FromLittleEndianRoundTrip(b[at..at + width]);
  }

  lemma NumberBelow(data: seq<u8>, at: nat, width: nat)
    requires at + width <= |data| && width <= 4
    ensures NumberAt(data, at, width) < Pow256(width)
    ensures Pow256(2) == 0x1_0000 && Pow256(4) == 0x1_0000_0000
  {
    Widths();
    FromLittleEndianRoundTrip(data[at..at + width]);
  }

  // ── Member lists ─────────────────────────────────────────────────────────

  /** The members an instruction lists from `at`. */
  function MemberList(data: seq<u8>, at: nat, count: nat): (members: seq<Key>)
    requires |data| >= at + 32 * count
    ensures |members| == count
  {
    seq(count, i requires 0 <= i < count => KeyAt(data, at + 32 * i))
  }

  /** The member list as the instruction's bytes: `chunks(32)`. */
  function Flatten(members: seq<Key>): (bytes: seq<u8>)
    ensures |bytes| == 32 * |members|
  {
    if members == [] then [] else members[0].bytes + Flatten(members[1..])
  }

  lemma {:induction false} FlattenAt(members: seq<Key>, i: nat)
    requires i < |members|
    ensures Flatten(members)[32 * i..32 * i + 32] == members[i].bytes
  {
    if i > 0 {
      FlattenAt(members[1..], i - 1);
      assert Flatten(members)[32 * i..32 * i + 32] == Flatten(members[1..])[32 * (i - 1)..32 * (i - 1) + 32];
    }
  }

  lemma InArea(data: seq<u8>, at: nat, area: seq<u8>, offset: nat)
    requires at + |area| <= |data| && data[at..at + |area|] == area
    requires offset + 32 <= |area|
    ensures data[at + offset..at + offset + 32] == area[offset..offset + 32]
  {
    var whole, part := data[at..at + |area|], data[at + offset..at + offset + 32];
    forall i | 0 <= i < 32 ensures part[i] == whole[offset + i] {
    }
  }

  /** Members written flat are read back one by one. */
  lemma MembersWritten(data: seq<u8>, at: nat, members: seq<Key>)
    requires at + 32 * MAX_MEMBERS <= |data| && |members| <= MAX_MEMBERS
    requires data[at..at + 32 * |members|] == Flatten(members)
    ensures MembersAt(data, at, |members|) == members
  {
    MembersRead(data, at, members);
    assert MembersAt(data, at, |members|) == MemberList(data, at, |members|);
  }

  /** `chunks(32).take(count)` finds a member exactly when the decoded list has it. */
  lemma ListedIsMember(data: seq<u8>, at: nat, count: nat, member: Key)
    requires at + 32 * MAX_MEMBERS <= |data| && count <= MAX_MEMBERS
    ensures member in MembersAt(data, at, count) <==>
              exists i | 0 <= i < count :: Key(data[at + 32 * i..at + 32 * i + 32]) == member
  {
    var members := MembersAt(data, at, count);
    if member in members {
      var i :| 0 <= i < |members| && members[i] == member;
      assert Key(data[at + 32 * i..at + 32 * i + 32]) == member;
    }
    if i :| 0 <= i < count && Key(data[at + 32 * i..at + 32 * i + 32]) == member {
      assert members[i] == member;
    }
  }

  // ── The same bytes at two places ─────────────────────────────────────────

  /** A member list written flat is read back, whatever surrounds it. */
  lemma MembersRead(data: seq<u8>, at: nat, members: seq<Key>)
    requires at + 32 * |members| <= |data| && data[at..at + 32 * |members|] == Flatten(members)
    ensures MemberList(data, at, |members|) == members
  {
    var area := data[at..at + 32 * |members|];
    forall i | 0 <= i < |members| ensures area[32 * i..32 * i + 32] == members[i].bytes {
      FlattenAt(members, i);
    }
    ListRead(data, at, area, members);
  }

  lemma ListRead(data: seq<u8>, at: nat, area: seq<u8>, members: seq<Key>)
    requires |area| == 32 * |members| && at + |area| <= |data| && data[at..at + |area|] == area
    requires forall i | 0 <= i < |members| :: area[32 * i..32 * i + 32] == members[i].bytes
    ensures MemberList(data, at, |members|) == members
  {
    forall i | 0 <= i < |members| ensures MemberList(data, at, |members|)[i] == members[i] {
      InArea(data, at, area, 32 * i);
    }
  }

  lemma SameNumberAt(a: seq<u8>, i: nat, b: seq<u8>, j: nat, width: nat)
    requires i + width <= |a| && j + width <= |b| && NumberAt(a, i, width) == NumberAt(b, j, width)
    ensures a[i..i + width] == b[j..j + width]
  {
    FromLittleEndianRoundTrip(a[i..i + width]);
    FromLittleEndianRoundTrip(b[j..j + width]);
  }

  lemma TwoBytes(data: seq<u8>, at: nat)
    requires at + 2 <= |data|
    ensures NumberAt(data, at, 2) == data[at] as int + 0x100 * data[at + 1] as int
  {
    LowestFirst(data[at], data[at + 1], 0, 0);
    assert data[at..at + 2] == [data[at], data[at + 1]];
  }

  lemma ZeroNumber(data: seq<u8>, at: nat, width: nat)
    requires at + width <= |data| && NumberAt(data, at, width) == 0
    ensures data[at..at + width] == Zeros(width)
  {
    FromLittleEndianRoundTrip(data[at..at + width]);
    ZeroBytes(width);
  }

  lemma {:induction false} ZeroBytes(width: nat)
    ensures LittleEndian(0, width) == Zeros(width)
  {
    if width > 0 {
      ZeroBytes(width - 1);
    }
  }

  /** Where two stretches hold the same members, they hold the same bytes. */
  lemma SameMembers(a: seq<u8>, i: nat, b: seq<u8>, j: nat, members: seq<Key>)
    requires |members| <= MAX_MEMBERS && i + 32 * MAX_MEMBERS <= |a| && j + 32 * |members| <= |b|
    requires MembersAt(a, i, |members|) == members && MemberList(b, j, |members|) == members
    ensures a[i..i + 32 * |members|] == b[j..j + 32 * |members|]
  {
    var first, second := a[i..i + 32 * |members|], b[j..j + 32 * |members|];
    forall x | 0 <= x < 32 * |members| ensures first[x] == second[x] {
      var k := x / 32;
      assert KeyAt(a, i + 32 * k) == MembersAt(a, i, |members|)[k];
      assert KeyAt(b, j + 32 * k) == MemberList(b, j, |members|)[k];
      assert first[x] == a[i + 32 * k..i + 32 * k + 32][x - 32 * k];
      assert second[x] == b[j + 32 * k..j + 32 * k + 32][x - 32 * k];
    }
  }
}
