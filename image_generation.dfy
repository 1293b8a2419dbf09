/** SDImageGenerator: one texture image from the local Stable Diffusion
    server, saved with its generation parameters as PNG metadata. */
module ImageGeneration {
  import opened Text
  import opened Services

  /** The model selected before every generation: one trained on textures. */
  const TEXTURE_CHECKPOINT: string := "TextureDiffusion_10.ckpt [ded387e0f3]"

  /** What png-info is sent in front of each base64 image. */
  const DATA_URL_PREFIX: string := "data:image/png;base64,"

  /** The txt2img body: a random seed, one batch of one image, 20 steps,
      guidance scale 7, 512 by 512 pixels and tileable output. Only the prompt
      varies. */
  function Txt2ImgRequest(prompt: string): Txt2ImgPayload
  {
    Txt2ImgPayload(prompt := prompt, seed := -1, batchSize := 1, nIter := 1, steps := 20,
                   cfgScale := 7, width := 512, height := 512, tiling := true)
  }

  /** Requests for different prompts differ in their prompt and in nothing
      else. */
  lemma Txt2ImgRequestOnlyPromptVaries(p: string, q: string)
    ensures Txt2ImgRequest(p).prompt == p
    ensures Txt2ImgRequest(p).(prompt := q) == Txt2ImgRequest(q)
  {
  }

  /** os.path.join(folder_path, f"{file_name}.png") */
  function TexturePath(folder: string, fileName: string): string
  {
    PathJoin(folder, fileName + ".png")
  }

  /** The two calls made for one returned image: ask png-info for its
      parameters, then save it with them. */
  function OneImageCalls(path: string, image: string, pngInfo: string -> string): seq<Call>
  {
    var info := pngInfo(DATA_URL_PREFIX + image);
    [PngInfo(DATA_URL_PREFIX + image), SavePng(path, Png(BeforeFirstComma(image), info))]
  }

  /** The calls made for the images of one txt2img reply, in their order. */
  function EachImageCalls(path: string, images: seq<string>, pngInfo: string -> string): seq<Call>
    decreases |images|
  {
    if images == [] then []
    else
      var n := |images| - 1;
      EachImageCalls(path, images[..n], pngInfo) + OneImageCalls(path, images[n], pngInfo)
  }

  /** All calls of generate_image for file name fileName and prompt prompt,
      when txt2img answers with images. */
  function ImageCalls(fileName: string, prompt: string, images: seq<string>,
                      pngInfo: string -> string, folder: string): seq<Call>
  {
    [SetOptions(TEXTURE_CHECKPOINT), Txt2Img(Txt2ImgRequest(prompt))]
      + EachImageCalls(TexturePath(folder, fileName), images, pngInfo)
  }

  lemma {:induction false} EachImageCallsAt(path: string, images: seq<string>, pngInfo: string -> string)
    ensures var calls := EachImageCalls(path, images, pngInfo);
      && |calls| == 2 * |images|
      && forall k | 0 <= k < |images| ::
           && calls[2 * k] == PngInfo(DATA_URL_PREFIX + images[k])
           && calls[2 * k + 1] == SavePng(path, Png(BeforeFirstComma(images[k]), pngInfo(DATA_URL_PREFIX + images[k])))
    decreases |images|
  {
    if images != [] {
      var n := |images| - 1;
      EachImageCallsAt(path, images[..n], pngInfo);
      assert forall k | 0 <= k < n :: images[..n][k] == images[k];
    }
  }

  /** The order of generate_image's calls: the checkpoint is selected, then
      the fixed txt2img request is sent with the given prompt, then for each
      returned image in turn png-info is asked and the image is saved to
      folder/<fileName>.png, its pixels decoded from the text before the first
      comma and its "parameters" chunk set to png-info's "info". */
  lemma ImageCallsOrder(fileName: string, prompt: string, images: seq<string>,
                        pngInfo: string -> string, folder: string)
    ensures var calls := ImageCalls(fileName, prompt, images, pngInfo, folder);
      && |calls| == 2 + 2 * |images|
      && calls[0] == SetOptions(TEXTURE_CHECKPOINT)
      && calls[1] == Txt2Img(Txt2ImgRequest(prompt))
      && forall k | 0 <= k < |images| ::
           && calls[2 + 2 * k] == PngInfo(DATA_URL_PREFIX + images[k])
           && calls[3 + 2 * k] == SavePng(TexturePath(folder, fileName),
                                          Png(BeforeFirstComma(images[k]), pngInfo(DATA_URL_PREFIX + images[k])))
  {
    EachImageCallsAt(TexturePath(folder, fileName), images, pngInfo);
  }

  /** The files after saving each of images in turn at path: the last one
      is what remains there, and with no image nothing changes. */
  function SavedLast(files: map<string, Png>, path: string, images: seq<string>,
                     pngInfo: string -> string): map<string, Png>
  {
    if images == [] then files
    else
      var last := images[|images| - 1];
      files[path := Png(BeforeFirstComma(last), pngInfo(DATA_URL_PREFIX + last))]
  }

  /** One more image: its two calls follow the earlier ones. */
  lemma EachImageStep(path: string, images: seq<string>, k: nat, pngInfo: string -> string)
    requires k < |images|
    ensures EachImageCalls(path, images[..k + 1], pngInfo) ==
            EachImageCalls(path, images[..k], pngInfo) + OneImageCalls(path, images[k], pngInfo)
  {
    assert images[..k + 1][..k] == images[..k];
  }

  lemma {:induction false} EachImageLastWins(files: map<string, Png>, path: string, images: seq<string>,
                                             pngInfo: string -> string)
    ensures Written(files, EachImageCalls(path, images, pngInfo)) == SavedLast(files, path, images, pngInfo)
    decreases |images|
  {
    if images != [] {
      var n := |images| - 1;
      var front := EachImageCalls(path, images[..n], pngInfo);
      var one := OneImageCalls(path, images[n], pngInfo);
      EachImageLastWins(files, path, images[..n], pngInfo);
      WrittenAppend(files, front, one);
      WrittenTwo(Written(files, front), one[0], one[1]);
      WrittenOne(Written(files, front), one[0]);
      WrittenOne(Written(files, front), one[1]);
    }
  }

  /** The saves that generate_image logs leave the disk as SavedLast says:
      every image of the reply is saved to the same path, so the last one is
      what remains there; no other file changes, and with no image nothing
      changes at all. */
  lemma ImageCallsLastWins(files: map<string, Png>, fileName: string, prompt: string,
                           images: seq<string>, pngInfo: string -> string, folder: string)
    ensures Written(files, ImageCalls(fileName, prompt, images, pngInfo, folder)) ==
            SavedLast(files, TexturePath(folder, fileName), images, pngInfo)
  {
    var requests := [SetOptions(TEXTURE_CHECKPOINT), Txt2Img(Txt2ImgRequest(prompt))];
    var saves := EachImageCalls(TexturePath(folder, fileName), images, pngInfo);
    WrittenAppend(files, requests, saves);
    WrittenTwo(files, requests[0], requests[1]);
    WrittenOne(files, requests[0]);
    WrittenOne(files, requests[1]);
    EachImageLastWins(files, TexturePath(folder, fileName), images, pngInfo);
  }

  /** Generates one image for a prompt and saves it under a file name. */
  class SDImageGenerator {
    const fileName: string
    const input: string

    constructor (fileName: string, input: string)
      ensures this.fileName == fileName && this.input == input
    {
      this.fileName := fileName;
      this.input := input;
    }

    /** generate_image: the calls are exactly ImageCalls for the images the
        server returns for this request, and the disk is what those calls
        write. */
    method GenerateImage(env: Environment)
      modifies env
      ensures env.completionCalls == old(env.completionCalls)
      ensures env.txt2imgCalls == old(env.txt2imgCalls) + 1
      ensures var images := Images(env.txt2img, old(env.txt2imgCalls));
        && env.log == old(env.log) + ImageCalls(fileName, input, images, env.pngInfo, env.folderPath)
        && env.Files() == SavedLast(old(env.Files()), TexturePath(env.folderPath, fileName), images, env.pngInfo)
    {
      var payload := Txt2ImgRequest(input);
      env.PostOptions(TEXTURE_CHECKPOINT);
      var images := env.PostTxt2Img(payload);
      ghost var log0 := env.log;
      assert log0 == old(env.log) + [SetOptions(TEXTURE_CHECKPOINT), Txt2Img(payload)];
      ghost var path := TexturePath(env.folderPath, fileName);
      assert images[..0] == [];
      for k := 0 to |images|
        invariant env.completionCalls == old(env.completionCalls)
        invariant env.txt2imgCalls == old(env.txt2imgCalls) + 1
        invariant env.log == log0 + EachImageCalls(path, images[..k], env.pngInfo)
      {
        var image := images[k];
        var decoded := BeforeFirstComma(image);
        ghost var before := env.log;
        var info := env.PostPngInfo(DATA_URL_PREFIX + image);
        env.Save(TexturePath(env.folderPath, fileName), Png(decoded, info));
        assert env.log == before + OneImageCalls(path, image, env.pngInfo);
        EachImageStep(path, images, k, env.pngInfo);
        AppendAssociative3(log0, EachImageCalls(path, images[..k], env.pngInfo), OneImageCalls(path, image, env.pngInfo));
      }
      assert images[..|images|] == images;
      ghost var calls := ImageCalls(fileName, input, images, env.pngInfo, env.folderPath);
      AppendAssociative3(old(env.log), [SetOptions(TEXTURE_CHECKPOINT), Txt2Img(payload)], EachImageCalls(path, images, env.pngInfo));
      assert env.Files() == SavedLast(old(env.Files()), path, images, env.pngInfo) by {
        WrittenAppend(env.startFiles, old(env.log), calls);
        ImageCallsLastWins(old(env.Files()), fileName, input, images, env.pngInfo, env.folderPath);
      }
    }
  }
}
