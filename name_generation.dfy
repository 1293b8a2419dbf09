/** GPTGenerator: five material names for a theme, each asked for with the
    names so far listed as ones to avoid, and a texture image generated for
    each name as soon as it arrives. */
module NameGeneration {
  import opened Results
  import opened Text
  import opened Services
  import opened ImageGeneration

  /** How many names one run asks for. */
  const NAME_COUNT: nat := 5

  const BASE_PROMPT: string := "only reply with a one word answer. Name a single material used in "
  const EXCLUSION_CLAUSE: string := " other than these "
  const IMAGE_PROMPT_PREFIX: string := "PBR, "
  const FILE_NAME_PREFIX: string := "Texture"

  // ---------------------------------------------------------------------------
  // Prompts

  /** A name as it appears in the rendering of a list of names. */
  function ItemRepr(name: string): string
  {
    "'" + name + "'"
  }

  function ItemsRepr(names: seq<string>): string
    decreases |names|
  {
    if |names| == 0 then ""
    else if |names| == 1 then ItemRepr(names[0])
    else ItemsRepr(names[..|names| - 1]) + ", " + ItemRepr(names[|names| - 1])
  }

  /** f"{names}" for a Python list of strings, without the escaping that
      repr applies to quotes and control characters. */
  function ListRepr(names: seq<string>): string
  {
    "[" + ItemsRepr(names) + "]"
  }

  /** The prompt of the round that follows the names in done. */
  function PromptFor(theme: string, done: seq<string>): string
  {
    if |done| == 0 then BASE_PROMPT + theme
    else BASE_PROMPT + theme + EXCLUSION_CLAUSE + ListRepr(done)
  }

  /** f"Texture{i}" */
  function TextureFileName(i: nat): string
  {
    FILE_NAME_PREFIX + NatToString(i)
  }

  /** part stands in whole from index at on. */
  predicate OccursAt(part: string, whole: string, at: nat)
  {
    at + |part| <= |whole| && whole[at..at + |part|] == part
  }

  lemma OccursInside(part: string, whole: string, at: nat, before: string, after: string)
    requires OccursAt(part, whole, at)
    ensures OccursAt(part, before + whole + after, |before| + at)
  {
    var all := before + whole + after;
    assert all[|before|..|before| + |whole|] == whole;
  }

  lemma {:induction false} ItemsReprMentions(names: seq<string>, j: nat)
    requires j < |names|
    ensures exists at: nat :: OccursAt(ItemRepr(names[j]), ItemsRepr(names), at)
    decreases |names|
  {
    var item := ItemRepr(names[j]);
    if |names| == 1 {
      assert OccursAt(item, ItemsRepr(names), 0);
    } else {
      var front := names[..|names| - 1];
      var head := ItemsRepr(front);
      if j < |names| - 1 {
        assert front[j] == names[j];
        ItemsReprMentions(front, j);
        var at: nat :| OccursAt(item, head, at);
        OccursInside(item, head, at, "", ", " + ItemRepr(names[|names| - 1]));
        assert "" + head + (", " + ItemRepr(names[|names| - 1])) == ItemsRepr(names);
      } else {
        OccursInside(item, item, 0, head + ", ", "");
        assert head + ", " + item + "" == ItemsRepr(names);
      }
    }
  }

  lemma OccursInList(part: string, names: seq<string>, at: nat, before: string)
    requires OccursAt(part, ItemsRepr(names), at)
    ensures OccursAt(part, before + ListRepr(names), |before| + 1 + at)
  {
    OccursInside(part, ItemsRepr(names), at, before + "[", "]");
    assert before + "[" + ItemsRepr(names) + "]" == before + ListRepr(names);
  }

  /** Every round's prompt starts with the base prompt and the theme as given,
      carries nothing more in the first round, and carries more from the
      second round on. */
  lemma PromptShape(theme: string, done: seq<string>)
    ensures (BASE_PROMPT + theme) <= PromptFor(theme, done)
    ensures done == [] <==> PromptFor(theme, done) == BASE_PROMPT + theme
  {
  }

  /** From the second round on, the prompt names, quoted, every name already
      produced. */
  lemma PromptMentionsEarlierName(theme: string, done: seq<string>, j: nat)
    requires j < |done|
    ensures exists at: nat :: OccursAt(ItemRepr(done[j]), PromptFor(theme, done), at)
  {
    ItemsReprMentions(done, j);
    var at: nat :| OccursAt(ItemRepr(done[j]), ItemsRepr(done), at);
    var before := BASE_PROMPT + theme + EXCLUSION_CLAUSE;
    OccursInList(ItemRepr(done[j]), done, at, before);
    assert PromptFor(theme, done) == before + ListRepr(done);
  }

  /** Files of different rounds never share a path. */
  lemma TexturePathsDistinct(folder: string, i: nat, j: nat)
    requires i != j
    ensures TexturePath(folder, TextureFileName(i)) != TexturePath(folder, TextureFileName(j))
  {
    NatToStringInjective(i, j);
    var a, b := TextureFileName(i), TextureFileName(j);
    assert a[|FILE_NAME_PREFIX|..] == NatToString(i) && b[|FILE_NAME_PREFIX|..] == NatToString(j);
    assert (a + ".png")[..|a|] == a && (b + ".png")[..|b|] == b;
    if |a| == |b| {
      assert a + ".png" != b + ".png";
    }
    assert (a + ".png")[0] == 'T' && (b + ".png")[0] == 'T';
    PathJoinInjective(folder, a + ".png", b + ".png");
  }

  // ---------------------------------------------------------------------------
  // The replies a run collects

  /** The texts of the replies to completion requests number first up to
      last - 1, in order, stopping before the first request that raised. */
  function LeadingReplies(completion: nat -> CompletionOutcome, first: nat, last: nat): (names: seq<string>)
    requires first <= last
    ensures |names| <= last - first
    decreases last - first
  {
    if last == first then []
    else
      var earlier := LeadingReplies(completion, first, last - 1);
      if |earlier| < last - 1 - first || completion(last - 1).Raised? then earlier
      else earlier + [completion(last - 1).text]
  }

  /** LeadingReplies takes each reply's text verbatim, in order, repeats
      included, and stops short of last only at a completion that raised. */
  lemma {:induction false} LeadingRepliesReplies(completion: nat -> CompletionOutcome, first: nat, last: nat)
    requires first <= last
    ensures var names := LeadingReplies(completion, first, last);
      && (forall k | 0 <= k < |names| :: completion(first + k) == Reply(names[k]))
      && (first + |names| < last ==> completion(first + |names|).Raised?)
    decreases last - first
  {
    if first < last {
      LeadingRepliesReplies(completion, first, last - 1);
    }
  }

  /** The properties of LeadingReplies determine it: any list of replies that
      takes them in order and stops only at last or at a raise is
      LeadingReplies. */
  lemma {:induction false} LeadingRepliesUnique(completion: nat -> CompletionOutcome, first: nat, last: nat,
                                                names: seq<string>)
    requires first + |names| <= last
    requires forall k | 0 <= k < |names| :: completion(first + k) == Reply(names[k])
    requires first + |names| < last ==> completion(first + |names|).Raised?
    ensures names == LeadingReplies(completion, first, last)
    decreases last - first
  {
    if first < last {
      if first + |names| == last {
        var front := names[..|names| - 1];
        assert forall k | 0 <= k < |front| :: completion(first + k) == Reply(front[k]) by {
          forall k | 0 <= k < |front| ensures completion(first + k) == Reply(front[k]) {
            assert front[k] == names[k];
          }
        }
        LeadingRepliesUnique(completion, first, last - 1, front);
        assert names == front + [names[|names| - 1]];
      } else {
        LeadingRepliesUnique(completion, first, last - 1, names);
      }
    }
  }

  /** When every request from first up to last - 1 gets a reply, there is
      one name per request, each the reply's text as sent: nothing is
      dropped, trimmed or de-duplicated. */
  lemma LeadingRepliesAllReplied(completion: nat -> CompletionOutcome, first: nat, last: nat)
    requires first <= last
    requires forall n | first <= n < last :: completion(n).Reply?
    ensures var names := LeadingReplies(completion, first, last);
      && |names| == last - first
      && forall k | 0 <= k < |names| :: names[k] == completion(first + k).text
  {
    var names := seq(last - first, k requires 0 <= k < last - first => completion(first + k).text);
    assert forall k | 0 <= k < |names| :: completion(first + k) == Reply(names[k]) by {
      forall k | 0 <= k < |names| ensures completion(first + k) == Reply(names[k]) {
        assert completion(first + k).Reply?;
      }
    }
    LeadingRepliesUnique(completion, first, last, names);
  }

  /** Each of names is the text of the reply to the request of its number,
      counted from first. */
  predicate Replied(completion: nat -> CompletionOutcome, first: nat, names: seq<string>)
    decreases |names|
  {
    names == [] ||
      (Replied(completion, first, names[..|names| - 1])
       && completion(first + |names| - 1) == Reply(names[|names| - 1]))
  }

  /** A reply to the next request extends the replied names by its text. */
  lemma RepliedNext(completion: nat -> CompletionOutcome, first: nat, names: seq<string>, n: nat, reply: CompletionOutcome)
    requires Replied(completion, first, names) && n == first + |names|
    requires reply == completion(n) && reply.Reply?
    ensures Replied(completion, first, names + [reply.text])
  {
    assert (names + [reply.text])[..|names|] == names;
  }

  /** Replied, stated index by index. */
  lemma {:induction false} RepliedAt(completion: nat -> CompletionOutcome, first: nat, names: seq<string>)
    requires Replied(completion, first, names)
    ensures forall k | 0 <= k < |names| :: completion(first + k) == Reply(names[k])
    decreases |names|
  {
    if names != [] {
      var front := names[..|names| - 1];
      RepliedAt(completion, first, front);
      assert forall k | 0 <= k < |front| :: front[k] == names[k];
    }
  }

  /** Replied names that end at last or at a request that raised are
      exactly LeadingReplies: the names of a run are fixed by the replies. */
  lemma RepliedLeading(completion: nat -> CompletionOutcome, first: nat, last: nat, names: seq<string>)
    requires Replied(completion, first, names) && first + |names| <= last
    requires first + |names| < last ==> completion(first + |names|).Raised?
    ensures LeadingReplies(completion, first, last) == names
  {
    RepliedAt(completion, first, names);
    LeadingRepliesUnique(completion, first, last, names);
  }

  // ---------------------------------------------------------------------------
  // The calls a run makes

  /** The calls of the round after the names in done, whose reply is name and
      whose txt2img request returns images. */
  function RoundCalls(theme: string, done: seq<string>, name: string, images: seq<string>,
                      pngInfo: string -> string, folder: string): seq<Call>
  {
    [Completion(PromptFor(theme, done))]
      + ImageCalls(TextureFileName(|done|), IMAGE_PROMPT_PREFIX + name, images, pngInfo, folder)
  }

  /** The calls of the rounds that produced names, when the first of them
      used txt2img request number t0. */
  function RunCalls(theme: string, names: seq<string>, txt2img: nat -> seq<string>, t0: nat,
                    pngInfo: string -> string, folder: string): seq<Call>
    decreases |names|
  {
    if names == [] then []
    else
      var front := names[..|names| - 1];
      RunCalls(theme, front, txt2img, t0, pngInfo, folder)
        + RoundCalls(theme, front, names[|names| - 1], Images(txt2img, t0 + |front|), pngInfo, folder)
  }

  /** A run's calls are those of all its rounds but the last, then the last
      round's.
      It returns the terms it speaks of as out-parameters so that its callers
      name them by variables, which keeps the callers' proofs small. */
  lemma RunCallsLast(theme: string, names: seq<string>, txt2img: nat -> seq<string>, t0: nat,
                     pngInfo: string -> string, folder: string)
    returns (whole: seq<Call>, earlier: seq<Call>, round: seq<Call>)
    requires names != []
    ensures whole == RunCalls(theme, names, txt2img, t0, pngInfo, folder)
    ensures var front := names[..|names| - 1];
      earlier == RunCalls(theme, front, txt2img, t0, pngInfo, folder)
      && round == RoundCalls(theme, front, names[|names| - 1], Images(txt2img, t0 + |front|), pngInfo, folder)
    ensures whole == earlier + round
  {
    var front := names[..|names| - 1];
    whole := RunCalls(theme, names, txt2img, t0, pngInfo, folder);
    earlier := RunCalls(theme, front, txt2img, t0, pngInfo, folder);
    round := RoundCalls(theme, front, names[|names| - 1], Images(txt2img, t0 + |front|), pngInfo, folder);
  }

  /** One more round appends its calls. */
  lemma RunCallsStep(theme: string, names: seq<string>, name: string,
                     txt2img: nat -> seq<string>, t0: nat, pngInfo: string -> string, folder: string)
    ensures RunCalls(theme, names + [name], txt2img, t0, pngInfo, folder)
            == RunCalls(theme, names, txt2img, t0, pngInfo, folder)
               + RoundCalls(theme, names, name, Images(txt2img, t0 + |names|), pngInfo, folder)
  {
    AppendOne(names, name);
    var whole, earlier, round := RunCallsLast(theme, names + [name], txt2img, t0, pngInfo, folder);
  }

  // ---------------------------------------------------------------------------
  // What a run leaves on disk

  /** The files after n rounds: round i leaves the last image its txt2img
      request (number t0 + i) returned at folder/Texture<i>.png. */
  function RunDisk(files: map<string, Png>, n: nat, txt2img: nat -> seq<string>, t0: nat,
                   pngInfo: string -> string, folder: string): map<string, Png>
    decreases n
  {
    if n == 0 then files
    else
      SavedLast(RunDisk(files, n - 1, txt2img, t0, pngInfo, folder),
                TexturePath(folder, TextureFileName(n - 1)), Images(txt2img, t0 + n - 1), pngInfo)
  }

  /** A round that saved its images at its own path extends the run's disk.
      It returns the terms it speaks of as out-parameters so that its callers
      name them by variables, which keeps the callers' proofs small.
      m stands for n + 1 so that RunDisk(files0, m, ...) is a term of its own. */
  lemma RunDiskStep(files0: map<string, Png>, n: nat, txt2img: nat -> seq<string>, t0: nat,
                    pngInfo: string -> string, folder: string, m: nat)
    returns (before: map<string, Png>, after: map<string, Png>)
    requires m == n + 1
    ensures before == RunDisk(files0, n, txt2img, t0, pngInfo, folder)
    ensures after == SavedLast(before, TexturePath(folder, TextureFileName(n)), Images(txt2img, t0 + n), pngInfo)
    ensures after == RunDisk(files0, m, txt2img, t0, pngInfo, folder)
  {
    before := RunDisk(files0, n, txt2img, t0, pngInfo, folder);
    after := SavedLast(before, TexturePath(folder, TextureFileName(n)), Images(txt2img, t0 + n), pngInfo);
  }

  /** A round's saves all go to its own file, so the last image it got is
      what stays there. */
  lemma RoundWritten(disk: map<string, Png>, theme: string, names: seq<string>, name: string,
                     images: seq<string>, pngInfo: string -> string, folder: string)
    ensures Written(disk, RoundCalls(theme, names, name, images, pngInfo, folder))
            == SavedLast(disk, TexturePath(folder, TextureFileName(|names|)), images, pngInfo)
  {
    var completion := Completion(PromptFor(theme, names));
    var image := ImageCalls(TextureFileName(|names|), IMAGE_PROMPT_PREFIX + name, images, pngInfo, folder);
    WrittenAppend(disk, [completion], image);
    WrittenOne(disk, completion);
    ImageCallsLastWins(disk, TextureFileName(|names|), IMAGE_PROMPT_PREFIX + name, images, pngInfo, folder);
  }

  /** A log that ends with the round of texture n leaves that round's last
      image at the round's file, on top of what the calls before it left.
      The facts about the disk are proved here, apart from those about the
      run's calls, so that neither proof has to carry the other's.
      It returns the terms it speaks of as out-parameters so that its callers
      name them by variables, which keeps the callers' proofs small. */
  lemma RoundExtends(files: map<string, Png>, earlier: seq<Call>, theme: string, names: seq<string>,
                     name: string, txt2img: nat -> seq<string>, t0: nat, pngInfo: string -> string,
                     folder: string, round: seq<Call>, whole: seq<Call>, n: nat, m: nat)
    returns (before: map<string, Png>, after: map<string, Png>)
    requires n == |names| && m == n + 1
    requires round == RoundCalls(theme, names, name, Images(txt2img, t0 + n), pngInfo, folder)
    requires whole == earlier + round
    ensures before == RunDisk(files, n, txt2img, t0, pngInfo, folder)
    ensures after == RunDisk(files, m, txt2img, t0, pngInfo, folder)
    ensures Written(files, earlier) == before ==> Written(files, whole) == after
  {
    before, after := RunDiskStep(files, n, txt2img, t0, pngInfo, folder, m);
    if Written(files, earlier) == before {
      WrittenAppend(files, earlier, round);
      RoundWritten(before, theme, names, name, Images(txt2img, t0 + n), pngInfo, folder);
    }
  }

  /** If the rounds before the last leave the disk as RunDisk says, so do
      all of them: the inductive step of RunWritten, kept apart from it.
      It returns the terms it speaks of as out-parameters so that its callers
      name them by variables, which keeps the callers' proofs small. */
  lemma RunWrittenStep(files: map<string, Png>, theme: string, names: seq<string>,
                       txt2img: nat -> seq<string>, t0: nat, pngInfo: string -> string, folder: string)
    returns (whole: seq<Call>, earlier: seq<Call>, before: map<string, Png>, after: map<string, Png>)
    requires names != []
    ensures whole == RunCalls(theme, names, txt2img, t0, pngInfo, folder)
    ensures var front := names[..|names| - 1];
      && earlier == RunCalls(theme, front, txt2img, t0, pngInfo, folder)
      && before == RunDisk(files, |front|, txt2img, t0, pngInfo, folder)
    ensures after == RunDisk(files, |names|, txt2img, t0, pngInfo, folder)
    ensures Written(files, earlier) == before ==> Written(files, whole) == after
  {
    var front, last := names[..|names| - 1], names[|names| - 1];
    var round;
    whole, earlier, round := RunCallsLast(theme, names, txt2img, t0, pngInfo, folder);
    before, after := RoundExtends(files, earlier, theme, front, last, txt2img, t0, pngInfo, folder,
                                  round, whole, |front|, |names|);
  }

  /** The saves in a run's log leave the disk as RunDisk says. */
  lemma {:induction false} RunWritten(files: map<string, Png>, theme: string, names: seq<string>,
                                      txt2img: nat -> seq<string>, t0: nat,
                                      pngInfo: string -> string, folder: string)
    ensures Written(files, RunCalls(theme, names, txt2img, t0, pngInfo, folder))
            == RunDisk(files, |names|, txt2img, t0, pngInfo, folder)
    decreases |names|
  {
    if names != [] {
      RunWritten(files, theme, names[..|names| - 1], txt2img, t0, pngInfo, folder);
      var whole, earlier, before, after := RunWrittenStep(files, theme, names, txt2img, t0, pngInfo, folder);
    }
  }

  /** A log that continues with the calls of a run, or with those and one
      more call that saves nothing, leaves the disk as RunDisk says. */
  lemma RunFiles(start: map<string, Png>, log0: seq<Call>, theme: string, names: seq<string>,
                 txt2img: nat -> seq<string>, t0: nat, pngInfo: string -> string, folder: string,
                 log: seq<Call>, extra: seq<Call>)
    requires log == log0 + RunCalls(theme, names, txt2img, t0, pngInfo, folder) + extra
    requires forall k | 0 <= k < |extra| :: !extra[k].SavePng?
    ensures Written(start, log) == RunDisk(Written(start, log0), |names|, txt2img, t0, pngInfo, folder)
  {
    var calls := RunCalls(theme, names, txt2img, t0, pngInfo, folder);
    WrittenAppend(start, log0 + calls, extra);
    WrittenNoSaves(Written(start, log0 + calls), extra);
    WrittenAppend(start, log0, calls);
    RunWritten(Written(start, log0), theme, names, txt2img, t0, pngInfo, folder);
  }

  /** Saving at one path leaves every other path as it was. */
  lemma SavedLastElsewhere(files: map<string, Png>, path: string, images: seq<string>,
                           pngInfo: string -> string, other: string)
    requires other != path
    ensures other in SavedLast(files, path, images, pngInfo) <==> other in files
    ensures other in files ==> SavedLast(files, path, images, pngInfo)[other] == files[other]
  {
  }

  /** Saving no image changes nothing; saving some leaves the last one at
      the path. */
  lemma SavedLastAt(files: map<string, Png>, path: string, images: seq<string>, pngInfo: string -> string)
    ensures images == [] ==> SavedLast(files, path, images, pngInfo) == files
    ensures images != [] ==>
      && path in SavedLast(files, path, images, pngInfo)
      && SavedLast(files, path, images, pngInfo)[path]
         == Png(BeforeFirstComma(images[|images| - 1]), pngInfo(DATA_URL_PREFIX + images[|images| - 1]))
  {
  }

  /** The two file maps agree at path: both lack it, or both hold the same
      file there. */
  predicate SameAt(a: map<string, Png>, b: map<string, Png>, path: string)
  {
    (path in a <==> path in b) && (path in a ==> a[path] == b[path])
  }

  /** A file that is no round's is left as it was. */
  lemma {:induction false} RunDiskElsewhere(files: map<string, Png>, n: nat, txt2img: nat -> seq<string>,
                                            t0: nat, pngInfo: string -> string, folder: string, path: string)
    requires forall i | 0 <= i < n :: path != TexturePath(folder, TextureFileName(i))
    ensures SameAt(RunDisk(files, n, txt2img, t0, pngInfo, folder), files, path)
    decreases n
  {
    if n > 0 {
      RunDiskElsewhere(files, n - 1, txt2img, t0, pngInfo, folder, path);
    }
  }

  /** The rounds after round i leave its file as round i left it. */
  lemma {:induction false} RunDiskLater(files: map<string, Png>, n: nat, txt2img: nat -> seq<string>,
                                        t0: nat, pngInfo: string -> string, folder: string, i: nat)
    requires i < n
    ensures SameAt(RunDisk(files, n, txt2img, t0, pngInfo, folder), RunDisk(files, i + 1, txt2img, t0, pngInfo, folder),
                   TexturePath(folder, TextureFileName(i)))
    decreases n
  {
    if i + 1 < n {
      var path := TexturePath(folder, TextureFileName(i));
      RunDiskLater(files, n - 1, txt2img, t0, pngInfo, folder, i);
      TexturePathsDistinct(folder, i, n - 1);
      SavedLastElsewhere(RunDisk(files, n - 1, txt2img, t0, pngInfo, folder),
                         TexturePath(folder, TextureFileName(n - 1)), Images(txt2img, t0 + n - 1), pngInfo, path);
    }
  }

  /** Round i whose request returned no image leaves its file as it was, and
      so do the rounds after it. */
  lemma RunDiskUnsaved(files: map<string, Png>, n: nat, txt2img: nat -> seq<string>,
                       t0: nat, pngInfo: string -> string, folder: string, i: nat)
    requires i < n && Images(txt2img, t0 + i) == []
    ensures SameAt(RunDisk(files, n, txt2img, t0, pngInfo, folder), files, TexturePath(folder, TextureFileName(i)))
  {
    var path := TexturePath(folder, TextureFileName(i));
    RunDiskLater(files, n, txt2img, t0, pngInfo, folder, i);
    var before, after := RunDiskStep(files, i, txt2img, t0, pngInfo, folder, i + 1);
    forall j | 0 <= j < i ensures path != TexturePath(folder, TextureFileName(j)) {
      TexturePathsDistinct(folder, i, j);
    }
    RunDiskElsewhere(files, i, txt2img, t0, pngInfo, folder, path);
  }

  /** Round i whose request returned images leaves the last of them at its
      file, and the rounds after it keep it there. */
  lemma RunDiskSaved(files: map<string, Png>, n: nat, txt2img: nat -> seq<string>,
                     t0: nat, pngInfo: string -> string, folder: string, i: nat)
    requires i < n && Images(txt2img, t0 + i) != []
    ensures var disk := RunDisk(files, n, txt2img, t0, pngInfo, folder);
      var path := TexturePath(folder, TextureFileName(i));
      var images := Images(txt2img, t0 + i);
      && path in disk
      && disk[path] == Png(BeforeFirstComma(images[|images| - 1]), pngInfo(DATA_URL_PREFIX + images[|images| - 1]))
  {
    var path := TexturePath(folder, TextureFileName(i));
    var images := Images(txt2img, t0 + i);
    var before, after := RunDiskStep(files, i, txt2img, t0, pngInfo, folder, i + 1);
    SavedLastAt(before, path, images, pngInfo);
    RunDiskLater(files, n, txt2img, t0, pngInfo, folder, i);
  }

  /** Texture<i>.png, once the run is over, holds the last image txt2img
      request i returned, with png-info's text as its "parameters" chunk; a
      round whose request returned no image leaves that file as it was. */
  lemma RunDiskTexture(files: map<string, Png>, n: nat, txt2img: nat -> seq<string>,
                       t0: nat, pngInfo: string -> string, folder: string, i: nat)
    requires i < n
    ensures var disk := RunDisk(files, n, txt2img, t0, pngInfo, folder);
      var path := TexturePath(folder, TextureFileName(i));
      Images(txt2img, t0 + i) == [] ==> SameAt(disk, files, path)
    ensures var disk := RunDisk(files, n, txt2img, t0, pngInfo, folder);
      var path := TexturePath(folder, TextureFileName(i));
      var images := Images(txt2img, t0 + i);
      images != [] ==>
        && path in disk
        && disk[path] == Png(BeforeFirstComma(images[|images| - 1]), pngInfo(DATA_URL_PREFIX + images[|images| - 1]))
  {
    if Images(txt2img, t0 + i) == [] {
      RunDiskUnsaved(files, n, txt2img, t0, pngInfo, folder, i);
    } else {
      RunDiskSaved(files, n, txt2img, t0, pngInfo, folder, i);
    }
  }

  /** A round that got a reply extends the run's log by its calls. */
  lemma RoundLogStep(log0: seq<Call>, theme: string, names: seq<string>, name: string,
                     txt2img: nat -> seq<string>, t0: nat, pngInfo: string -> string, folder: string,
                     n: nat, logBefore: seq<Call>, logAfter: seq<Call>)
    requires logBefore == log0 + RunCalls(theme, names, txt2img, t0, pngInfo, folder) && n == t0 + |names|
    requires logAfter == logBefore + RoundCalls(theme, names, name, Images(txt2img, n), pngInfo, folder)
    ensures logAfter == log0 + RunCalls(theme, names + [name], txt2img, t0, pngInfo, folder)
  {
    RunCallsStep(theme, names, name, txt2img, t0, pngInfo, folder);
    AppendAssociative3(log0, RunCalls(theme, names, txt2img, t0, pngInfo, folder),
                       RoundCalls(theme, names, name, Images(txt2img, t0 + |names|), pngInfo, folder));
  }

  // ---------------------------------------------------------------------------
  // The order of a run's requests

  /** The completion and txt2img requests among calls, in order. */
  function GenerationRequests(calls: seq<Call>): seq<Call>
    decreases |calls|
  {
    if calls == [] then []
    else
      var last := calls[|calls| - 1];
      GenerationRequests(calls[..|calls| - 1]) + (if last.Completion? || last.Txt2Img? then [last] else [])
  }

  lemma {:induction false} GenerationRequestsAppend(a: seq<Call>, b: seq<Call>)
    ensures GenerationRequests(a + b) == GenerationRequests(a) + GenerationRequests(b)
    decreases |b|
  {
    if b == [] {
      assert a + b == a;
    } else {
      GenerationRequestsAppend(a, b[..|b| - 1]);
      assert (a + b)[..|a + b| - 1] == a + b[..|b| - 1];
    }
  }

  lemma GenerationRequestsOne(call: Call)
    ensures GenerationRequests([call]) == if call.Completion? || call.Txt2Img? then [call] else []
  {
    assert [call][..0] == [];
  }

  lemma {:induction false} EachImageRequestsNothing(path: string, images: seq<string>, pngInfo: string -> string)
    ensures GenerationRequests(EachImageCalls(path, images, pngInfo)) == []
    decreases |images|
  {
    if images != [] {
      var n := |images| - 1;
      var one := OneImageCalls(path, images[n], pngInfo);
      EachImageRequestsNothing(path, images[..n], pngInfo);
      GenerationRequestsAppend(EachImageCalls(path, images[..n], pngInfo), one);
      GenerationRequestsAppend([one[0]], [one[1]]);
      assert [one[0]] + [one[1]] == one;
      GenerationRequestsOne(one[0]);
      GenerationRequestsOne(one[1]);
    }
  }

  lemma RoundRequests(theme: string, done: seq<string>, name: string, images: seq<string>,
                      pngInfo: string -> string, folder: string)
    ensures GenerationRequests(RoundCalls(theme, done, name, images, pngInfo, folder))
      == [Completion(PromptFor(theme, done)), Txt2Img(Txt2ImgRequest(IMAGE_PROMPT_PREFIX + name))]
  {
    var c0 := Completion(PromptFor(theme, done));
    var c1 := SetOptions(TEXTURE_CHECKPOINT);
    var c2 := Txt2Img(Txt2ImgRequest(IMAGE_PROMPT_PREFIX + name));
    var saves := EachImageCalls(TexturePath(folder, TextureFileName(|done|)), images, pngInfo);
    assert RoundCalls(theme, done, name, images, pngInfo, folder) == [c0] + [c1] + [c2] + saves;
    GenerationRequestsAppend([c0] + [c1] + [c2], saves);
    GenerationRequestsAppend([c0] + [c1], [c2]);
    GenerationRequestsAppend([c0], [c1]);
    GenerationRequestsOne(c0);
    GenerationRequestsOne(c1);
    GenerationRequestsOne(c2);
    EachImageRequestsNothing(TexturePath(folder, TextureFileName(|done|)), images, pngInfo);
  }

  /** The requests a run should make, round by round: the completion request
      for the next name, then the txt2img request for that name. */
  function Alternation(theme: string, names: seq<string>): seq<Call>
    decreases |names|
  {
    if names == [] then []
    else
      var n := |names| - 1;
      Alternation(theme, names[..n])
        + [Completion(PromptFor(theme, names[..n])), Txt2Img(Txt2ImgRequest(IMAGE_PROMPT_PREFIX + names[n]))]
  }

  /** A run's requests are those for all its names but the last, then the
      two for the last.
      It returns the terms it speaks of as out-parameters so that its callers
      name them by variables, which keeps the callers' proofs small. */
  lemma AlternationLast(theme: string, names: seq<string>)
    returns (whole: seq<Call>, earlier: seq<Call>, pair: seq<Call>)
    requires names != []
    ensures whole == Alternation(theme, names)
    ensures var n := |names| - 1;
      && earlier == Alternation(theme, names[..n])
      && pair == [Completion(PromptFor(theme, names[..n])), Txt2Img(Txt2ImgRequest(IMAGE_PROMPT_PREFIX + names[n]))]
    ensures whole == earlier + pair
  {
    var n := |names| - 1;
    whole := Alternation(theme, names);
    earlier := Alternation(theme, names[..n]);
    pair := [Completion(PromptFor(theme, names[..n])), Txt2Img(Txt2ImgRequest(IMAGE_PROMPT_PREFIX + names[n]))];
  }

  /** One more name appends its two requests. */
  lemma AlternationStep(theme: string, names: seq<string>, name: string)
    ensures Alternation(theme, names + [name])
            == Alternation(theme, names)
               + [Completion(PromptFor(theme, names)), Txt2Img(Txt2ImgRequest(IMAGE_PROMPT_PREFIX + name))]
  {
    assert (names + [name])[..|names|] == names;
  }

  /** If the earlier rounds' requests are their Alternation, so are those of
      one more round. */
  lemma RunRequestsStep(theme: string, names: seq<string>, name: string, txt2img: nat -> seq<string>,
                        t0: nat, pngInfo: string -> string, folder: string)
    requires GenerationRequests(RunCalls(theme, names, txt2img, t0, pngInfo, folder)) == Alternation(theme, names)
    ensures GenerationRequests(RunCalls(theme, names + [name], txt2img, t0, pngInfo, folder))
            == Alternation(theme, names + [name])
  {
    var earlier := RunCalls(theme, names, txt2img, t0, pngInfo, folder);
    var round := RoundCalls(theme, names, name, Images(txt2img, t0 + |names|), pngInfo, folder);
    RunCallsStep(theme, names, name, txt2img, t0, pngInfo, folder);
    GenerationRequestsAppend(earlier, round);
    RoundRequests(theme, names, name, Images(txt2img, t0 + |names|), pngInfo, folder);
    AlternationStep(theme, names, name);
  }

  /** The completion and txt2img requests of a run's log are its Alternation. */
  lemma {:induction false} RunRequests(theme: string, names: seq<string>, txt2img: nat -> seq<string>,
                                       t0: nat, pngInfo: string -> string, folder: string)
    ensures GenerationRequests(RunCalls(theme, names, txt2img, t0, pngInfo, folder)) == Alternation(theme, names)
    decreases |names|
  {
    if names != [] {
      var front, last := names[..|names| - 1], names[|names| - 1];
      assert names == front + [last];
      RunRequests(theme, front, txt2img, t0, pngInfo, folder);
      RunRequestsStep(theme, front, last, txt2img, t0, pngInfo, folder);
    }
  }

  /** A run makes two requests per name. */
  lemma {:induction false} AlternationLength(theme: string, names: seq<string>)
    ensures |Alternation(theme, names)| == 2 * |names|
    decreases |names|
  {
    if names != [] {
      var whole, earlier, pair := AlternationLast(theme, names);
      AlternationLength(theme, names[..|names| - 1]);
    }
  }

  /** The two requests of round i: the completion request whose prompt lists
      names 0 to i - 1, then the txt2img request for name i. */
  lemma {:induction false} AlternationIndex(theme: string, names: seq<string>, i: nat)
    requires i < |names|
    ensures var requests := Alternation(theme, names);
      && 2 * i + 1 < |requests|
      && requests[2 * i] == Completion(PromptFor(theme, names[..i]))
      && requests[2 * i + 1] == Txt2Img(Txt2ImgRequest(IMAGE_PROMPT_PREFIX + names[i]))
    decreases |names|
  {
    var n := |names| - 1;
    var whole, earlier, pair := AlternationLast(theme, names);
    AlternationLength(theme, names[..n]);
    if i < n {
      AlternationIndex(theme, names[..n], i);
      PrefixOfPrefix(names, n, i);
    }
  }

  /** In a run's requests, completion and txt2img alternate: the request for
      name i carries the prompt that lists names 0 to i - 1, and image i is
      requested, with prompt "PBR, " + name i, after reply i and before the
      request for name i + 1. */
  lemma AlternationAt(theme: string, names: seq<string>)
    ensures var requests := Alternation(theme, names);
      && |requests| == 2 * |names|
      && forall i | 0 <= i < |names| ::
           && requests[2 * i] == Completion(PromptFor(theme, names[..i]))
           && requests[2 * i + 1] == Txt2Img(Txt2ImgRequest(IMAGE_PROMPT_PREFIX + names[i]))
  {
    AlternationLength(theme, names);
    forall i | 0 <= i < |names|
      ensures Alternation(theme, names)[2 * i] == Completion(PromptFor(theme, names[..i]))
      ensures Alternation(theme, names)[2 * i + 1] == Txt2Img(Txt2ImgRequest(IMAGE_PROMPT_PREFIX + names[i]))
    {
      AlternationIndex(theme, names, i);
    }
  }

  // ---------------------------------------------------------------------------
  // The generator

  /** Asks for texture names for a theme and has an image made for each. */
  class GPTGenerator {
    const userInput: string
    const userKey: string

    constructor (userInput: string, userKey: string)
      ensures this.userInput == userInput && this.userKey == userKey
    {
      this.userInput := userInput;
      this.userKey := userKey;
    }

    /** One pass of generate_texture_names' loop after the names in done:
        ask for a name with the prompt that lists done, and, when a reply
        comes, have its image generated as Texture<|done|>. The log gains
        the round's calls, or only the request when it raised. */
    method NameRound(env: Environment, done: seq<string>) returns (reply: CompletionOutcome)
      modifies env
      ensures reply == Outcome(env.completion, old(env.completionCalls))
      ensures env.completionCalls == old(env.completionCalls) + 1
      ensures reply.Raised? ==>
        && env.txt2imgCalls == old(env.txt2imgCalls)
        && env.log == old(env.log) + [Completion(PromptFor(userInput, done))]
      ensures reply.Reply? ==>
        && env.txt2imgCalls == old(env.txt2imgCalls) + 1
        && env.log == old(env.log) + RoundCalls(userInput, done, reply.text, Images(env.txt2img, old(env.txt2imgCalls)),
                                                env.pngInfo, env.folderPath)
    {
      var i := |done|;
      var prompt := BASE_PROMPT + userInput;
      if i > 0 {
        prompt := prompt + EXCLUSION_CLAUSE + ListRepr(done[..i]);
      }
      assert prompt == PromptFor(userInput, done) by {
        assert done[..i] == done;
      }
      reply := env.Complete(prompt);
      if reply.Reply? {
        // texture_names[i] is the reply just appended
        var sdGenerator := new SDImageGenerator(TextureFileName(i), IMAGE_PROMPT_PREFIX + reply.text);
        sdGenerator.GenerateImage(env);
        AppendAssociative3(old(env.log), [Completion(prompt)],
                           ImageCalls(TextureFileName(i), IMAGE_PROMPT_PREFIX + reply.text,
                                      Images(env.txt2img, old(env.txt2imgCalls)), env.pngInfo, env.folderPath));
      }
    }

    /** generate_texture_names: five rounds, each one completion request
        followed by one image; a completion that raises ends the run with its
        error, leaving the images of the earlier rounds saved. */
    method GenerateTextureNames(env: Environment) returns (result: Result<seq<string>, OpenAIError>, ghost names: seq<string>)
      modifies env
      ensures |names| <= NAME_COUNT && Replied(env.completion, old(env.completionCalls), names)
      ensures env.txt2imgCalls == old(env.txt2imgCalls) + |names|
      ensures result.Success? ==>
        && result.value == names && |names| == NAME_COUNT
        && env.completionCalls == old(env.completionCalls) + NAME_COUNT
        && env.log == old(env.log) + RunCalls(userInput, names, env.txt2img, old(env.txt2imgCalls), env.pngInfo, env.folderPath)
      ensures result.Failure? ==>
        && |names| < NAME_COUNT
        && Outcome(env.completion, old(env.completionCalls) + |names|) == Raised(result.error)
        && env.completionCalls == old(env.completionCalls) + |names| + 1
        && env.log == old(env.log) + RunCalls(userInput, names, env.txt2img, old(env.txt2imgCalls), env.pngInfo, env.folderPath)
             + [Completion(PromptFor(userInput, names))]
    {
      ghost var c0, t0 := env.completionCalls, env.txt2imgCalls;
      var textureNames: seq<string> := [];
      for i := 0 to NAME_COUNT
        invariant |textureNames| == i
        invariant Replied(env.completion, c0, textureNames)
        invariant env.completionCalls == c0 + i && env.txt2imgCalls == t0 + i
        invariant env.log == old(env.log) + RunCalls(userInput, textureNames, env.txt2img, t0, env.pngInfo, env.folderPath)
      {
        ghost var before, requests, generations := env.log, env.completionCalls, env.txt2imgCalls;
        var reply := NameRound(env, textureNames);
        if reply.Raised? {
          return Failure(reply.error), textureNames;
        }
        assert env.log == old(env.log) + RunCalls(userInput, textureNames + [reply.text], env.txt2img, t0, env.pngInfo, env.folderPath) by {
          RoundLogStep(old(env.log), userInput, textureNames, reply.text, env.txt2img, t0, env.pngInfo, env.folderPath,
                       generations, before, env.log);
        }
        assert Replied(env.completion, c0, textureNames + [reply.text]) by {
          RepliedNext(env.completion, c0, textureNames, requests, reply);
        }
        textureNames := textureNames + [reply.text];
      }
      return Success(textureNames), textureNames;
    }
  }
}
