/** How the race of the compressor's callback carries over to the multipart upload that it starts. */
module CompressedUpload {
  import opened Bytes
  import opened Counting
  import opened Wrappers
  import Compressor
  import Multipart
  import Uploader

  /** All blocks of a compressed file have ended well. */
  ghost predicate Compressed(blocks: nat, acts: seq<Compressor.Action>) {
    && blocks > 0 && Compressor.Run(Compressor.Begin(blocks), acts, false).Some?
    && var s := Compressor.Run(Compressor.Begin(blocks), acts, false).value;
      forall i :: 0 <= i < |s.blocks| ==> s.blocks[i].Finished?
  }

  /** How often the callback has started the upload, and how many tasks stood in the gap. */
  function Fires(blocks: nat, acts: seq<Compressor.Action>): nat
    requires Compressor.Run(Compressor.Begin(blocks), acts, false).Some?
  {
    Compressor.Run(Compressor.Begin(blocks), acts, false).value.fires
  }

  function Raced(blocks: nat, acts: seq<Compressor.Action>): nat
    requires Compressor.Run(Compressor.Begin(blocks), acts, false).Some?
  {
    Compressor.Run(Compressor.Begin(blocks), acts, false).value.raced
  }

  /** One run of the planning schedules the numbers that `Copies` counts. */
  lemma PlanningIsOneCopy(pumps: seq<Uploader.Pump>, n: nat)
    requires Uploader.AllPartNumbers(pumps) == Numbers(n)
    ensures Uploader.AllPartNumbers(pumps) == Multipart.Copies(n, 1)
  {
    Multipart.CopiesFacts(n, 1);
  }

  /** The completing request of a compressed upload names the tag of every part, in every run of its
      part tasks, if and only if the callback was not raced, or there is a single part. */
  lemma RequestCompleteIff(blocks: nat, compressing: seq<Compressor.Action>, data: seq<seq<Byte>>, tags: seq<string>)
    requires Compressed(blocks, compressing) && Multipart.Planned(data, tags, [])
    ensures var nums := Multipart.Copies(|data|, Fires(blocks, compressing));
      (forall acts: seq<Multipart.Action> :: var r := Multipart.Run(Multipart.Start(data, tags, nums), acts);
         r.Some? && r.value.calls == 1 ==> r.value.named)
      <==> Raced(blocks, compressing) == 0 || |data| == 1
  {
    Compressor.CallbackCount(blocks, compressing);
    Multipart.NamesEveryPartIff(data, tags, Fires(blocks, compressing));
  }

  /** Without a race, when all part tasks end well: one request, which names every part, and an object
      exactly if it did not fail. */
  lemma UnracedUpload(blocks: nat, compressing: seq<Compressor.Action>, data: seq<seq<Byte>>, tags: seq<string>,
                      acts: seq<Multipart.Action>)
    requires Compressed(blocks, compressing) && Raced(blocks, compressing) == 0 && Multipart.Planned(data, tags, [])
    requires var start := Multipart.Start(data, tags, Multipart.Copies(|data|, Fires(blocks, compressing)));
      Multipart.Run(start, acts).Some?
    ensures var start := Multipart.Start(data, tags, Multipart.Copies(|data|, Fires(blocks, compressing)));
      var u := Multipart.Run(start, acts).value;
      (forall i :: 0 <= i < |u.tasks| ==> u.tasks[i].state.Done?) ==>
        u.calls == 1 && u.named && u.assembled == if u.call == Some(Multipart.Ok) then Some(Concat(data)) else None
  {
    Compressor.CallbackCount(blocks, compressing);
    var nums := Multipart.Copies(|data|, Fires(blocks, compressing));
    Multipart.CopiesFacts(|data|, 1);
    Multipart.CompletedAtMostOnce(data, tags, nums, acts);
    Multipart.CompletedWhenAllEndWell(data, tags, nums, acts);
    Multipart.NamesEveryPart(data, tags, nums, acts);
  }
}
