/** The world outside the tool: the OpenAI completion endpoint, the local
    Stable Diffusion web server (http://127.0.0.1:7860) and the output folder.

    The services are oracles. The reply to a completion request and the
    images of a txt2img request are fixed in advance per call number, which is
    as general as any reply strategy within one run, since the requests a run
    sends are themselves determined by the earlier replies. The png-info reply
    is a function of the image posted, since the server reads it back out of
    the image. What the tool does to the outside is kept as a log of calls, in
    the order they were issued, and as the map from file paths to saved
    images. */
module Services {

  /** The openai.error classes the tool names, and any other one. */
  datatype OpenAIError =
    | APIError
    | APIConnectionError
    | RateLimitError
    | AuthenticationError
    | OtherError(name: string)

  /** What openai.Completion.create does: return the text of its first choice,
      or raise. */
  datatype CompletionOutcome = Reply(text: string) | Raised(error: OpenAIError)

  /** The JSON body of POST /sdapi/v1/txt2img. */
  datatype Txt2ImgPayload = Txt2ImgPayload(
    prompt: string,
    seed: int,
    batchSize: int,
    nIter: int,
    steps: int,
    cfgScale: int,
    width: int,
    height: int,
    tiling: bool)

  /** A saved PNG: the base64 text its pixels were decoded from, and its
      "parameters" text chunk. */
  datatype Png = Png(encoded: string, parameters: string)

  /** One effect on the outside, in the order issued. */
  datatype Call =
    | Completion(prompt: string)            // openai.Completion.create
    | SetOptions(checkpoint: string)        // POST /sdapi/v1/options
    | Txt2Img(payload: Txt2ImgPayload)      // POST /sdapi/v1/txt2img
    | PngInfo(image: string)                // POST /sdapi/v1/png-info
    | SavePng(path: string, png: Png)       // Image.save(path, pnginfo=...)

  /** The files on disk after the calls, starting from files: each save
      replaces whatever was at its path. */
  function Written(files: map<string, Png>, calls: seq<Call>): map<string, Png>
    decreases |calls|
  {
    if calls == [] then files
    else
      var before := Written(files, calls[..|calls| - 1]);
      match calls[|calls| - 1]
      case SavePng(path, png) => before[path := png]
      case _ => before
  }

  lemma {:induction false} WrittenAppend(files: map<string, Png>, a: seq<Call>, b: seq<Call>)
    ensures Written(files, a + b) == Written(Written(files, a), b)
    decreases |b|
  {
    if b == [] {
      assert a + b == a;
    } else {
      WrittenAppend(files, a, b[..|b| - 1]);
      assert (a + b)[..|a + b| - 1] == a + b[..|b| - 1];
    }
  }

  /** The outcome of completion request number n under the oracle completion.
      Outcome, Images and Info only apply their oracle. They exist so that an
      oracle's answer is one and the same term in function bodies, contracts
      and proof statements, which keeps the proofs about runs small. */
  function Outcome(completion: nat -> CompletionOutcome, n: nat): CompletionOutcome
  {
    completion(n)
  }

  /** The images txt2img request number n returns under the oracle txt2img. */
  function Images(txt2img: nat -> seq<string>, n: nat): seq<string>
  {
    txt2img(n)
  }

  /** The "info" png-info returns for image under the oracle pngInfo. */
  function Info(pngInfo: string -> string, image: string): string
  {
    pngInfo(image)
  }

  /** Regrouping a log of three parts, stated once for the callers that
      need it as a separate step. */
  lemma AppendAssociative3(a: seq<Call>, b: seq<Call>, c: seq<Call>)
    ensures a + b + c == a + (b + c)
  {
  }

  /** Appending one element keeps the earlier ones in front of it. */
  lemma AppendOne<T>(s: seq<T>, x: T)
    ensures (s + [x])[..|s|] == s && (s + [x])[|s|] == x
  {
  }

  /** A prefix of a prefix is a prefix of the whole. */
  lemma PrefixOfPrefix<T>(s: seq<T>, n: nat, i: nat)
    requires i < n <= |s|
    ensures s[..n][..i] == s[..i] && s[..n][i] == s[i]
  {
  }

  /** A single call writes the file it saves, and nothing else. */
  lemma WrittenOne(files: map<string, Png>, call: Call)
    ensures Written(files, [call]) == if call.SavePng? then files[call.path := call.png] else files
  {
    assert [call][..0] == [];
  }

  /** Two calls in a row act one after the other. */
  lemma WrittenTwo(files: map<string, Png>, first: Call, second: Call)
    ensures Written(files, [first, second]) == Written(Written(files, [first]), [second])
  {
    WrittenAppend(files, [first], [second]);
    assert [first] + [second] == [first, second];
  }

  /** Calls that save nothing leave the files as they were. */
  lemma {:induction false} WrittenNoSaves(files: map<string, Png>, calls: seq<Call>)
    requires forall k | 0 <= k < |calls| :: !calls[k].SavePng?
    ensures Written(files, calls) == files
    decreases |calls|
  {
    if calls != [] {
      var front := calls[..|calls| - 1];
      assert forall k | 0 <= k < |front| :: front[k] == calls[k];
      WrittenNoSaves(files, front);
    }
  }

  /** No call in calls saves to path. */
  predicate LeavesPath(calls: seq<Call>, path: string)
  {
    forall k | 0 <= k < |calls| :: !(calls[k].SavePng? && calls[k].path == path)
  }

  /** Calls that save nothing to path leave whatever is there, or its absence. */
  lemma {:induction false} WrittenElsewhere(files: map<string, Png>, calls: seq<Call>, path: string)
    requires LeavesPath(calls, path)
    ensures path in Written(files, calls) <==> path in files
    ensures path in files ==> Written(files, calls)[path] == files[path]
    decreases |calls|
  {
    if calls != [] {
      var front := calls[..|calls| - 1];
      assert LeavesPath(front, path) by {
        forall k | 0 <= k < |front| ensures !(front[k].SavePng? && front[k].path == path) {
          assert front[k] == calls[k];
        }
      }
      WrittenElsewhere(files, front, path);
    }
  }

  /** The services, their replies, and what the tool has done to them. */
  class Environment {
    /** Outcome of the n-th completion request. */
    const completion: nat -> CompletionOutcome
    /** Base64 images returned by the n-th txt2img request. */
    const txt2img: nat -> seq<string>
    /** The "info" field png-info returns for a posted image. */
    const pngInfo: string -> string
    /** The module-level folder_path the images are saved under. */
    const folderPath: string
    /** The files on disk before the first call. */
    const startFiles: map<string, Png>

    var completionCalls: nat
    var txt2imgCalls: nat
    var log: seq<Call>

    /** The files on disk now: the starting files overwritten by every save
        made so far. */
    function Files(): map<string, Png>
      reads this
    {
      Written(startFiles, log)
    }

    constructor (completion: nat -> CompletionOutcome, txt2img: nat -> seq<string>,
                 pngInfo: string -> string, folderPath: string, files: map<string, Png>)
      ensures this.completion == completion && this.txt2img == txt2img
      ensures this.pngInfo == pngInfo && this.folderPath == folderPath
      ensures completionCalls == 0 && txt2imgCalls == 0
      ensures log == [] && Files() == files
    {
      this.completion := completion;
      this.txt2img := txt2img;
      this.pngInfo := pngInfo;
      this.folderPath := folderPath;
      this.startFiles := files;
      completionCalls, txt2imgCalls := 0, 0;
      log := [];
    }

    /** Appending a call that saves nothing leaves the files as they were. */
    method Record(call: Call)
      requires !call.SavePng?
      modifies this
      ensures completionCalls == old(completionCalls) && txt2imgCalls == old(txt2imgCalls)
      ensures log == old(log) + [call] && Files() == old(Files())
    {
      ghost var before := log;
      log := log + [call];
      assert Files() == Written(startFiles, before) by {
        WrittenAppend(startFiles, before, [call]);
        WrittenOne(Written(startFiles, before), call);
      }
    }

    /** openai.Completion.create(prompt=prompt, ...).choices[0].text */
    method Complete(prompt: string) returns (outcome: CompletionOutcome)
      modifies this
      ensures outcome == Outcome(completion, old(completionCalls))
      ensures completionCalls == old(completionCalls) + 1 && txt2imgCalls == old(txt2imgCalls)
      ensures log == old(log) + [Completion(prompt)] && Files() == old(Files())
    {
      outcome := completion(completionCalls);
      Record(Completion(prompt));
      completionCalls := completionCalls + 1;
    }

    /** POST /sdapi/v1/options; its response is not looked at. */
    method PostOptions(checkpoint: string)
      modifies this
      ensures completionCalls == old(completionCalls) && txt2imgCalls == old(txt2imgCalls)
      ensures log == old(log) + [SetOptions(checkpoint)] && Files() == old(Files())
    {
      Record(SetOptions(checkpoint));
    }

    /** POST /sdapi/v1/txt2img, returning r['images']. */
    method PostTxt2Img(payload: Txt2ImgPayload) returns (images: seq<string>)
      modifies this
      ensures images == Images(txt2img, old(txt2imgCalls))
      ensures completionCalls == old(completionCalls) && txt2imgCalls == old(txt2imgCalls) + 1
      ensures log == old(log) + [Txt2Img(payload)] && Files() == old(Files())
    {
      images := txt2img(txt2imgCalls);
      Record(Txt2Img(payload));
      txt2imgCalls := txt2imgCalls + 1;
    }

    /** POST /sdapi/v1/png-info, returning the reply's "info". */
    method PostPngInfo(image: string) returns (info: string)
      modifies this
      ensures info == Info(pngInfo, image)
      ensures completionCalls == old(completionCalls) && txt2imgCalls == old(txt2imgCalls)
      ensures log == old(log) + [PngInfo(image)] && Files() == old(Files())
    {
      info := pngInfo(image);
      Record(PngInfo(image));
    }

    /** Image.save(path, pnginfo=...): overwrites the file at path. */
    method Save(path: string, png: Png)
      modifies this
      ensures completionCalls == old(completionCalls) && txt2imgCalls == old(txt2imgCalls)
      ensures log == old(log) + [SavePng(path, png)] && Files() == old(Files())[path := png]
    {
      ghost var before := log;
      log := log + [SavePng(path, png)];
      assert Files() == Written(startFiles, before)[path := png] by {
        WrittenAppend(startFiles, before, [SavePng(path, png)]);
        WrittenOne(Written(startFiles, before), SavePng(path, png));
      }
    }
  }
}
