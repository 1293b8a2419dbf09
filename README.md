# Smart-Tile-Maker core, in Dafny

Smart-Tile-Maker is a small desktop tool. From a theme typed by the user it
asks an OpenAI completion model for five material names, one at a time. Each
prompt lists the names already received so that the model avoids repeating
them. As soon as a name arrives, the tool asks a local Stable Diffusion web
server for a tileable PBR texture of that material and saves it as
`Texture<i>.png` in the output folder, with the server's generation
parameters as PNG metadata. Before a run starts, a pre-flight gate checks, in
order:

1. the output folder exists;
2. the Stable Diffusion server answers;
3. the key field is Latin-1;
4. the configured OpenAI key is Latin-1;
5. the key works.

The gate shows a warning dialog for the first check that fails.

This project models that core: `GPTGenerator.generate_texture_names`,
`SDImageGenerator.generate_image` and `issue_check`. It proves the properties
of the model listed in the table below.

- `results.dfy` (module `Results`): `Result` and `Option`.
- `text.dfy` (module `Text`): the standard-library string operations the tool
  relies on.
  - `str(i)`, with its inverse `int(s)`.
  - `s.split(",", 1)[0]`.
  - `os.path.join` on POSIX.
  - `str.encode('latin-1')`. The decoding defined next to it is only the
    partner the encoding is proved against; the tool never decodes.
- `services.dfy` (module `Services`): the outside world as a class
  `Environment`.
  - The completion endpoint and txt2img are oracles indexed by request
    number; png-info is a function of the posted image.
  - A log of every call, in order.
  - The files on disk, defined as the starting files overwritten by every
    save in the log (`Written`).
  - One method per service call, each appending its call to the log.
- `image_generation.dfy` (module `ImageGeneration`): `generate_image` as a
  method with a loop over the returned images. It is specified by
  `ImageCalls` (the calls it makes) and `SavedLast` (what it leaves on disk).
- `name_generation.dfy` (module `NameGeneration`): the prompts, and
  `generate_texture_names` as a method with a `for` loop. Each pass of the
  loop is the method `NameRound`. The method is specified by four functions:
  - `RunCalls`: the calls of a run;
  - `Replied` and `LeadingReplies`: the names a run collects;
  - `RunDisk`: what a run leaves on disk;
  - `Alternation`: the order of its completion and txt2img requests.
- `preflight.dfy` (module `Preflight`): `issue_check` as a pure function over
  the outcomes of its five checks. It is related to a reference definition,
  "the first check that fails" (`FirstFailing`).

An exception raised by the completion call inside `generate_texture_names`
is not caught there. The model returns it as `Failure(error)`, together with
the names collected before it and the calls already made. In `issue_check`,
an openai error other than the four it catches is returned as
`Propagated(error)`.

`issue_check` runs five checks in this order: the folder, then the GET on
the server, then the key field, then `openai.api_key`, then the probe
(main.py:228-271). The GET therefore comes before both Latin-1 checks.

## Model

| member | source | states |
|---|---|---|
| Text.NatToString | main.py:173 | `str(i)` of a round number: its decimal digits, most significant first, never empty |
| Text.NatToStringDigits | main.py:173 | `str(i)` in `f"Texture{i}"` consists of decimal digits only |
| Text.ParseNatToString | main.py:173 | `int(str(n)) == n`: the decimal rendering can be read back |
| Text.NatToStringInjective | main.py:173 | different round numbers give different `str(i)` |
| Text.BeforeFirstComma | main.py:98 | `i.split(",", 1)[0]`: the characters before the first comma, or all of `i` |
| Text.CommaIndex | main.py:98 | the index of the first comma at or after a position, or the length when there is none |
| Text.CommaIndexFirst | main.py:98 | no comma lies before that index |
| Text.BeforeFirstCommaSplits | main.py:98 | `i.split(",", 1)[0]` is a comma-free prefix of `i`, followed by a comma unless it is all of `i` |
| Text.NoCommaKeptWhole | main.py:98 | a string without a comma is decoded whole |
| Text.PathJoin | main.py:113 | `os.path.join(directory, name)` with the POSIX separator: `name` itself when it starts with `/`, otherwise `name` after the directory, with a `/` between them unless the directory is empty or already ends in one |
| Text.PathJoinInjective | main.py:113 | `os.path.join(folder, name)` is injective in relative names |
| Text.EncodeLatin1 | main.py:241 | `encode('latin-1')` succeeds iff every code point is below 256; the bytes are the code points; a failure names the first offending character |
| Text.DecodeLatin1 | main.py:241 | decoding bytes gives a Latin-1 string |
| Text.Latin1RoundTrip | main.py:248 | encoding then decoding, and decoding then encoding, give back the input |
| Services.Written | main.py:113 | the files on disk: the starting files, each save in the log overwriting its path in log order |
| Services.WrittenAppend | main.py:113 | the disk after calls `a + b` is the disk after `a`, then after `b` |
| Services.WrittenNoSaves | main.py:89-105 | requests that save nothing leave the disk unchanged |
| Services.WrittenElsewhere | main.py:113 | calls that never save to a path leave that path as it was |
| Services.Environment.Complete | main.py:150-157 | `ask_gpt` returns the next completion outcome, logs the request and counts it |
| Services.Environment.PostOptions | main.py:89-90 | the options POST is logged and changes no file |
| Services.Environment.PostTxt2Img | main.py:91-94 | txt2img returns the next request's images and logs the payload |
| Services.Environment.PostPngInfo | main.py:104-105 | png-info returns the "info" for the posted image and logs the call |
| Services.Environment.Save | main.py:113 | `image.save` overwrites exactly the file at its path |
| ImageGeneration.Txt2ImgRequest | main.py:68-78 | the txt2img payload: the given prompt, seed -1, batch size 1, one iteration, 20 steps, CFG scale 7, 512 by 512, tiling on |
| ImageGeneration.TexturePath | main.py:113 | the path of a texture file: `<file_name>.png` joined to the folder |
| ImageGeneration.EachImageCalls | main.py:96-113 | the calls made for the returned images, in order: for each one a png-info request on its data URL, then the save of its comma-prefix with that info |
| ImageGeneration.ImageCalls | main.py:84-113 | the calls of `generate_image`: the options POST with the texture checkpoint, the txt2img POST, then `EachImageCalls` at the texture's path |
| ImageGeneration.SavedLast | main.py:96-113 | what `generate_image` leaves on disk: the files unchanged when no image came back, otherwise its path overwritten with the last image and that image's "info" |
| ImageGeneration.Txt2ImgRequestOnlyPromptVaries | main.py:68-78 | the txt2img payload is fixed (seed -1, one batch of one, 20 steps, cfg 7, 512x512, tiling); only the prompt varies |
| ImageGeneration.EachImageCallsAt | main.py:96-113 | for image k: png-info of `"data:image/png;base64," + image`, then a save of the text before the first comma with that info as "parameters" |
| ImageGeneration.ImageCallsOrder | main.py:84-113 | the checkpoint `TextureDiffusion_10.ckpt [ded387e0f3]` is selected before txt2img; then each image gets a png-info call and a save, in order, at `folder/<file_name>.png` |
| ImageGeneration.EachImageLastWins | main.py:96-113 | saving every image at one path leaves the last one there |
| ImageGeneration.ImageCallsLastWins | main.py:62-113 | `generate_image` leaves only its own file changed: the last image with its info, or nothing when no image came back |
| ImageGeneration.SDImageGenerator.GenerateImage | main.py:62-113 | the method makes exactly the calls of `ImageCalls` for the images the server returns, and leaves the disk as `SavedLast` says |
| NameGeneration.ListRepr | main.py:171 | `f"{texture_names[:i]}"`: the names quoted, separated by `, `, in brackets (without `repr`'s escaping) |
| NameGeneration.ItemsRepr | main.py:171 | the inside of that list rendering: each name quoted, separated by `, ` |
| NameGeneration.PromptFor | main.py:168-171 | the prompt of round i: the base request with the theme, then from round 1 on ` other than these ` and the names so far |
| NameGeneration.TextureFileName | main.py:173 | `f"Texture{i}"` |
| NameGeneration.PromptShape | main.py:168-171 | every prompt starts with the base prompt and the theme unchanged (the empty theme included); the first round's prompt is exactly that |
| NameGeneration.PromptMentionsEarlierName | main.py:170-171 | from round 1 on, the prompt names every earlier reply, quoted |
| NameGeneration.ItemsReprMentions | main.py:171 | the rendering of a list of names contains each of them |
| NameGeneration.TexturePathsDistinct | main.py:173 | different rounds save to different files |
| NameGeneration.Replied | main.py:165-172 | name k of a list is the text of the reply to completion request k, counted from a first request number |
| NameGeneration.LeadingReplies | main.py:165-176 | a run collects at most one name per request |
| NameGeneration.LeadingRepliesReplies | main.py:167-172 | name k is reply k verbatim, and collecting stops early only at a completion that raised |
| NameGeneration.LeadingRepliesUnique | main.py:165-176 | those two properties determine the names of a run |
| NameGeneration.LeadingRepliesAllReplied | main.py:165-176 | with every request answered there is one name per request, each reply as sent, repeats kept |
| NameGeneration.RepliedAt | main.py:172 | each collected name is the reply to the request of its number |
| NameGeneration.RepliedLeading | main.py:165-176 | the names `generate_texture_names` returns, or holds when it raises, are `LeadingReplies` of the completion oracle |
| NameGeneration.RoundCalls | main.py:168-174 | the calls of one pass of the loop: the completion request with that round's prompt, then `ImageCalls` for `Texture<i>` with prompt `"PBR, " + name` |
| NameGeneration.RunCalls | main.py:165-176 | the calls of a run that collected the given names: its rounds' `RoundCalls`, in order, round i using txt2img request t0 + i |
| NameGeneration.RunCallsStep | main.py:167-174 | one more round appends its completion request and its image calls to the run's calls |
| NameGeneration.RoundExtends | main.py:172-174 | a round appended to a log leaves the round's last image in that round's file, on top of what the earlier calls left |
| NameGeneration.RunWrittenStep | main.py:167-174 | if the rounds before the last leave the disk as `RunDisk` says, the whole run does too |
| NameGeneration.RunDisk | main.py:167-174 | what the first n rounds leave on disk: each round's `SavedLast` at `Texture<i>.png`, in round order |
| NameGeneration.RunWritten | main.py:167-174 | the saves among a run's calls leave the disk as `RunDisk` says |
| NameGeneration.RunFiles | main.py:159-176 | a finished or interrupted run leaves the disk as `RunDisk` says |
| NameGeneration.RunDiskElsewhere | main.py:173-174 | a file that is no round's texture is untouched |
| NameGeneration.RunDiskLater | main.py:173-174 | later rounds do not touch an earlier round's file |
| NameGeneration.RunDiskUnsaved | main.py:173-174 | a round whose txt2img request returned no image leaves its `Texture<i>.png` as it was |
| NameGeneration.RunDiskSaved | main.py:173-174 | a round that got images leaves its `Texture<i>.png` holding the last of them, with png-info's text as "parameters" |
| NameGeneration.RunDiskTexture | main.py:173-174 | `Texture<i>.png` holds the last image of txt2img request i, with png-info's text as "parameters", or is unchanged when no image came back |
| NameGeneration.RoundLogStep | main.py:167-174 | a log holding a run's calls, extended by one more round, holds the calls of the longer run |
| NameGeneration.RoundRequests | main.py:172-174 | a round sends one completion request, then one txt2img request with prompt `"PBR, " + name` |
| NameGeneration.Alternation | main.py:167-174 | the run's generation requests as they should come: for each name, the completion request for the names before it, then the txt2img request `"PBR, " + name` |
| NameGeneration.RunRequests | main.py:167-174 | the completion and txt2img requests of a run are its `Alternation` |
| NameGeneration.AlternationLength | main.py:167 | a run makes two such requests per name |
| NameGeneration.AlternationIndex | main.py:167-174 | request 2i is the completion request listing names 0 to i-1; request 2i+1 is the txt2img request for name i |
| NameGeneration.AlternationAt | main.py:167-174 | image i is requested after reply i and before the request for name i+1 |
| NameGeneration.GPTGenerator.NameRound | main.py:168-174 | one pass of the loop: the prompt for the names so far, then the image of the reply as `Texture<i>`; only the request is logged when it raised |
| NameGeneration.GPTGenerator.GenerateTextureNames | main.py:159-176 | five completion requests and five names, each the reply verbatim, with exactly `RunCalls` logged; a raise ends the run with its error after the earlier rounds' calls |
| Preflight.IsErrorStatus | main.py:234 | `raise_for_status` raises exactly for a status from 400 to 599 |
| Preflight.Passes | main.py:228-259 | whether one check passes: the folder exists, the GET answered without an error status, the key field and the configured key encode to Latin-1, the probe did not raise |
| Preflight.ProbeMessage | main.py:260-271 | the dialog text for each of the four caught openai errors, and none for any other error |
| Preflight.FailureMessage | main.py:228-271 | the dialog text each failing check shows: "folder", "sd", "bad input ", "bad key ", or the probe's `ProbeMessage` |
| Preflight.IssueCheck | main.py:221-272 | the checks run form a prefix of the fixed order; at most one dialog; exactly one iff the result is False; an error leaves only from the probe |
| Preflight.FirstFailing | main.py:221-272 | the index of the first check that fails: all before it pass |
| Preflight.IssueCheckStopsAtFirstFailure | main.py:228-272 | the gate runs the checks up to the first failing one and none after it |
| Preflight.IssueCheckPassesIffAll | main.py:221-272 | the gate returns True iff all five checks pass, and then shows no dialog |
| Preflight.IssueCheckReportsFirstFailure | main.py:228-271 | the first failing check's own dialog is shown once and False is returned; an uncaught openai error leaves with no dialog |
| Preflight.Latin1Encodes | main.py:240-251 | a Latin-1 check fails iff some code point is above 255 |
| Preflight.FailureMessagesDistinct | main.py:228-271 | different checks show different dialogs |
| Preflight.ProbeMessagesDistinct | main.py:254-271 | the four caught openai errors each have their own dialog; any other error has none |

## Left out

- The GUI is not modelled: widgets, layout, button and Enter-key wiring, the folder-browse dialog, the help URL and the message box itself (main.py:179-373). A dialog is modelled as its text.
- HTTP and OpenAI internals are not modelled. The replies are oracle inputs: completion outcomes and txt2img images per request number, and png-info's "info" as a function of the posted image.
- The probe's own reply in `issue_check` is not modelled, only whether the probe raised.
- Errors of the Stable Diffusion calls are not modelled: connection failures, a missing `images` key, a malformed base64 string, a failing `image.save`. The image server is assumed to answer.
- PIL decoding and PNG writing are not modelled. A saved file is the base64 text its pixels come from plus its "parameters" chunk.
- Module-level folder creation and the environment-variable key bootstrap (main.py:21-36) are not modelled. Neither is the key choice in `generate_textures` (main.py:302-316). The folder path is a constant of `Environment`.
- `GPTGenerator.constructor` keeps `user_key_var`, but nothing in the generator reads it, as in the source.
- The model choice `text-davinci-003`, temperature 0.6 and max_tokens 150 are passed through to the service unchanged. They are not modelled.
- `print` calls are not modelled.
- NameGeneration.ListRepr renders `['a', 'b']` without the escaping that Python's `repr` applies. `repr` escapes quotes and backslashes, and also newlines, tabs and other non-printable characters, and it switches to double quotes for a name holding `'`. A completion text usually begins with `"\n\n"`, so in Python such a reply appears in the prompt only in escaped form.
- NameGeneration.PromptMentionsEarlierName holds for this simplified rendering only. Under Python's `repr` an earlier reply with a newline, a tab, a quote or a backslash is named only in escaped form.
- Text.PathJoin models `os.path.join` on POSIX only (`posixpath`). On Windows, `ntpath` also treats `\` as a separator and drive letters as roots; that behaviour is not modelled.
- `openai.api_key` is modelled as a string. A `None` key would raise AttributeError inside `issue_check`. That cannot happen in the source, because `generate_textures` sets the key before calling the gate.
- The openai error classes are modelled as disjoint categories. The library that defines their hierarchy is not part of this model.
- NameGeneration.GPTGenerator.GenerateTextureNames: its `ensures` states the calls logged, not the files on disk. What the run leaves on disk follows from that log through NameGeneration.RunFiles and NameGeneration.RunDiskTexture.
- NameGeneration.GPTGenerator.GenerateTextureNames: the names held when a completion raises are returned as a ghost out-parameter. In the source they are lost together with the exception.
