/**
 * The convert area's option lists and setting updates: chunk sizes limited by the server's
 * maximum input length, the GPU list with a CPU entry, the DirectML GPU buttons, and the
 * extra-convert sizes.
 */
module ConvertArea {
  import opened Wrappers
  import opened Text
  import opened Seqs
  import opened Settings

  /** The chunk-size candidates used when the caller provides none. */
  const DEFAULT_CHUNK_NUMS: seq<int> :=
    [8, 16, 24, 32, 40, 48, 64, 80, 96, 112, 128, 192, 256, 320, 384, 448, 512, 576, 640, 704,
     768, 832, 896, 960, 1024, 2048, 4096, 8192, 16384]

  const DIRECTML_EDITION: string := "onnxdirectML-cuda"

  /** `x < maxInputLength / 128`, with the division done on numbers, not integers. */
  predicate FitsInput(maxInputLength: int, x: int) {
    (x as real) < (maxInputLength as real) / 128.0
  }

  /** The limit reads the same in integers: `x * 128 < maxInputLength`. */
  lemma FitsInputInIntegers(maxInputLength: int, x: int)
    ensures FitsInput(maxInputLength, x) <==> x * 128 < maxInputLength
  {
  }

  /** The chunk sizes offered: the candidates, filtered by the limit when the limit is set. */
  method ChunkSizeOptions(inputChunkNums: Option<seq<int>>, maxInputLength: int) returns (nums: seq<int>)
    ensures maxInputLength == 0 ==> nums == inputChunkNums.GetOr(DEFAULT_CHUNK_NUMS)
    ensures maxInputLength != 0 ==>
              forall x :: x in nums <==> x in inputChunkNums.GetOr(DEFAULT_CHUNK_NUMS) && x * 128 < maxInputLength
    ensures maxInputLength != 0 ==>
              forall x :: multiset(nums)[x] ==
                          if x * 128 < maxInputLength then multiset(inputChunkNums.GetOr(DEFAULT_CHUNK_NUMS))[x] else 0
    ensures IsSubsequence(nums, inputChunkNums.GetOr(DEFAULT_CHUNK_NUMS))
  {
    if inputChunkNums.None? {
      nums := DEFAULT_CHUNK_NUMS;
    } else {
      nums := inputChunkNums.value;
    }
    ghost var candidates := nums;
    if maxInputLength != 0 {
      nums := Filter(nums, x => FitsInput(maxInputLength, x));
      FittingCandidates(candidates, maxInputLength);
    } else {
      SubsequenceOfItself(nums);
    }
  }

  /** Filtering by the limit keeps, in order, every occurrence of a candidate below it and nothing else. */
  lemma FittingCandidates(candidates: seq<int>, maxInputLength: int)
    ensures var nums := Filter(candidates, x => FitsInput(maxInputLength, x));
            && IsSubsequence(nums, candidates)
            && (forall x :: x in nums <==> x in candidates && x * 128 < maxInputLength)
            && (forall x :: multiset(nums)[x] == if x * 128 < maxInputLength then multiset(candidates)[x] else 0)
  {
    var nums := Filter(candidates, x => FitsInput(maxInputLength, x));
    FilterIsSubsequence(candidates, x => FitsInput(maxInputLength, x));
    forall x
      ensures x in nums <==> x in candidates && x * 128 < maxInputLength
      ensures multiset(nums)[x] == if x * 128 < maxInputLength then multiset(candidates)[x] else 0
    {
      FilterCount(candidates, x => FitsInput(maxInputLength, x), x);
      FitsInputInIntegers(maxInputLength, x);
    }
  }

  /** The entry `gpusEntry` appends for running on the CPU. */
  const CPU_ENTRY: Gpu := Gpu(-1, "cpu", 0)

  /** `gpusEntry`: a copy of the server's GPU list with the CPU entry pushed onto the end. */
  function GpuEntries(gpus: seq<Gpu>): (entries: seq<Gpu>)
    ensures |entries| == |gpus| + 1
    ensures entries[..|gpus|] == gpus && entries[|gpus|] == CPU_ENTRY
  {
    gpus + [CPU_ENTRY]
  }

  /** The ids offered in the GPU selector: the server's ids and -1 for the CPU. */
  lemma GpuEntryIds(gpus: seq<Gpu>, id: int)
    ensures (exists e :: e in GpuEntries(gpus) && e.id == id) <==> id == -1 || exists g :: g in gpus && g.id == id
  {
    var entries := GpuEntries(gpus);
    if exists g :: g in gpus && g.id == id {
      var g :| g in gpus && g.id == id;
      var k :| 0 <= k < |gpus| && gpus[k] == g;
      assert entries[k] == g;
    }
    if id == -1 {
      assert entries[|gpus|] == CPU_ENTRY;
    }
  }

  /** The GPU ids of the five DirectML buttons: cpu, gpu0 .. gpu3. */
  const DML_BUTTON_GPUS: seq<int> := [-1, 0, 1, 2, 3]

  /** The class names of the five DirectML buttons for the server's current `gpu`. */
  function DmlButtonStyles(gpu: int): (styles: seq<ButtonStyle>)
    ensures |styles| == |DML_BUTTON_GPUS|
    ensures forall i :: 0 <= i < |styles| ==> (styles[i] == Active <==> DML_BUTTON_GPUS[i] == gpu)
  {
    seq(|DML_BUTTON_GPUS|, i requires 0 <= i < |DML_BUTTON_GPUS| =>
      if gpu == DML_BUTTON_GPUS[i] then Active else Standby)
  }

  /** Exactly one DirectML button is active for a gpu of -1 .. 3, none for any other. */
  lemma OneDmlButtonActive(gpu: int)
    ensures Count(DmlButtonStyles(gpu), Active) == if gpu in DML_BUTTON_GPUS then 1 else 0
  {
    var s := DmlButtonStyles(gpu);
    assert s == [s[0], s[1], s[2], s[3], s[4]];
    assert s[4..] == [s[4]] && s[3..] == [s[3]] + s[4..] && s[2..] == [s[2]] + s[3..] && s[1..] == [s[1]] + s[2..];
    assert Count(s[4..], Active) == (if s[4] == Active then 1 else 0);
    assert Count(s[3..], Active) == (if s[3] == Active then 1 else 0) + Count(s[4..], Active);
    assert Count(s[2..], Active) == (if s[2] == Active then 1 else 0) + Count(s[3..], Active);
    assert Count(s[1..], Active) == (if s[1] == Active then 1 else 0) + Count(s[2..], Active);
  }

  datatype GpuControl = DmlButtons | NoGpuControl | GpuSelect(entries: seq<Gpu>)

  /** Which GPU control the area shows: buttons on the DirectML edition, none on the web edition, else a selector. */
  function GpuControlFor(edition: string, webEdition: bool, gpus: seq<Gpu>): (c: GpuControl)
    ensures c.DmlButtons? <==> Contains(edition, DIRECTML_EDITION)
    ensures c.NoGpuControl? <==> !Contains(edition, DIRECTML_EDITION) && webEdition
    ensures c.GpuSelect? ==> c.entries == GpuEntries(gpus)
  {
    if Contains(edition, DIRECTML_EDITION) then DmlButtons
    else if webEdition then NoGpuControl
    else GpuSelect(GpuEntries(gpus))
  }

  /** Choosing a GPU replaces only the server's `gpu`; the button for it becomes the active one. */
  function GpuSelected(server: ServerSetting, id: int): (r: ServerSetting)
    ensures r.gpu == id && r.(gpu := server.gpu) == server
    ensures id in DML_BUTTON_GPUS ==> Count(DmlButtonStyles(r.gpu), Active) == 1
  {
    OneDmlButtonActive(id);
    server.(gpu := id)
  }

  /** The extra-convert sizes: 4096 doubled five times. */
  function ExtraConvertSizes(): (sizes: seq<int>)
    ensures |sizes| == 6 && sizes[0] == 4096
    ensures forall i :: 0 < i < |sizes| ==> sizes[i] == 2 * sizes[i - 1]
  {
    [1024 * 4, 1024 * 8, 1024 * 16, 1024 * 32, 1024 * 64, 1024 * 128]
  }

  /** Choosing an extra-convert size replaces only the server's `extraConvertSize`. */
  function ExtraConvertSizeSelected(server: ServerSetting, size: int): (r: ServerSetting)
    ensures r.extraConvertSize == size && r.(extraConvertSize := server.extraConvertSize) == server
  {
    server.(extraConvertSize := size)
  }

  /** Choosing a chunk size sets the worklet's `inputChunkNum` and the server's `serverReadChunkSize` alike. */
  function ChunkSizeSelected(worklet: WorkletNodeSetting, server: ServerSetting, size: int)
    : (r: (WorkletNodeSetting, ServerSetting))
    ensures r.0.inputChunkNum == size && r.1.serverReadChunkSize == size
    ensures r.0.inputChunkNum == r.1.serverReadChunkSize
    ensures r.0.(inputChunkNum := worklet.inputChunkNum) == worklet
    ensures r.1.(serverReadChunkSize := server.serverReadChunkSize) == server
  {
    (worklet.(inputChunkNum := size), server.(serverReadChunkSize := size))
  }
}
