/** What travels between daemons: a clip and its representations. */
module Model {
  import opened Bytes

  type Uuid = n: nat | n < 0x1_0000_0000_0000_0000_0000_0000_0000_0000

  datatype Representation = Representation(item: u32, format: Text, data: seq<byte>)

  datatype Clip = Clip(id: Uuid, origin: Uuid, createdMillis: u64, representations: seq<Representation>)

  function TotalBytes(reps: seq<Representation>): nat {
    if reps == [] then 0 else |reps[0].data| + TotalBytes(reps[1..])
  }

  lemma {:induction false} TotalAppend(reps: seq<Representation>, r: Representation)
    ensures TotalBytes(reps + [r]) == TotalBytes(reps) + |r.data|
  {
    if reps == [] {
      assert [r][1..] == [];
    } else {
      assert (reps + [r])[1..] == reps[1..] + [r];
      TotalAppend(reps[1..], r);
    }
  }
}
