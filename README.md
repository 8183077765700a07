# Mood check-ins by SMS and WhatsApp, modelled in Dafny

The system is a personal mood tracker. A PocketBase hook receives check-in
messages from Twilio over SMS or WhatsApp. It asks a language model to
extract mood, energy, activity and short insights from each message. It
stores the result as an `entries` record and sends a confirmation back. A
second endpoint sends the check-in question, a third simulates an inbound
message, and a fourth acknowledges delivery reports. A React dashboard
shows the records: a weekly day-by-hour heatmap with per-day statistics, and
a daily chart with one card per entry.

This project models the core of that behaviour and proves properties of it:

- `Js` (js.dfy) holds the JavaScript semantics the core relies on: JSON
  values and truthiness, property reads, the `\s` whitespace class,
  `trim`, template rendering of `undefined`, and UTF-16 code units.
- `Base64` (base64.dfy) holds the hook's hand-written base64 encoder, both
  as a loop (`Encode`) and as the function it computes (`Encoded`). Beside
  it is the RFC 4648 encoding with its decoder and their round trip. The
  encoder never emits `=`, so it agrees with RFC 4648 exactly when the
  input length is a multiple of three. A standard decoder reads its output
  of n octets as the input followed by (3 − n mod 3) mod 3 zero octets
  (none when n is a multiple of three).
- `Channel` (channel.dfy) covers detecting WhatsApp senders, stripping the
  `whatsapp:`/`sms:` prefix, and formatting outbound addresses.
- `Extraction` (extraction.dfy) covers the extraction prompt, removing the
  markdown fences from the model's reply, the word count, and the fallback
  record.
- `Entries` (entries.dfy) holds the `entries` schema and the record the
  hook fills field by field.
- `Handlers` (handlers.dfy) holds the four HTTP handlers. Each is a
  module-level method that takes a `Host`, which logs every effect outside
  the handler (asking the model, saving, posting). The webhook, send-prompt
  and test handlers are proved equal to pure functions of their inputs and
  of how the outside world answers. The status callback is proved to answer
  200 and to leave the log unchanged.
- `WeeklyView` (weekly.dfy) covers the heatmap object, which is built and
  then filled in place, plus the daily statistics, the mood colours and the
  week's average.
- `DailyView` (daily.dfy) covers the chart points, the energy scale and
  label, the mood badge colour, and which insight an entry card shows.

The default test message "4, M, working from cafe, probably code some more"
counts nine pieces when split on `\s+` (`Handlers.DefaultMessageWords`).

## Model

| member | source | states |
|---|---|---|
| Js.Member | backend/pb_hooks/sms.pb.js:105 | reading a property yields a value exactly when the value is an object that has the key |
| Js.TrimStartIsSuffix | backend/pb_hooks/sms.pb.js:79 | trimming the start leaves a suffix of the input and removes only whitespace |
| Js.TrimEndIsPrefix | backend/pb_hooks/sms.pb.js:79 | trimming the end leaves a prefix of the input and removes only whitespace |
| Js.TrimStartIdempotent | backend/pb_hooks/sms.pb.js:79 | trimming the start twice is the same as trimming it once |
| Js.TrimStartOfConcat | backend/pb_hooks/sms.pb.js:79 | once a text has a non-space character, trimming the start does not touch what follows it |
| Js.TrimEndAt | backend/pb_hooks/sms.pb.js:79 | trimming the end stops at the last non-space character |
| Js.Utf16OfLatin1 | backend/pb_hooks/sms.pb.js:128-130 | below U+0100, `charCodeAt` gives one code unit per character, equal to the character's value |
| Base64.AlphabetAt | backend/pb_hooks/sms.pb.js:124 | the encoder's table is the 64 base64 digits followed by `=` at index 64 |
| Base64.Encode | backend/pb_hooks/sms.pb.js:123-137 | the encoding loop computes `Encoded` group by group; its output has 4 characters per started group of three and never contains `=` |
| Base64.EncodedLength | backend/pb_hooks/sms.pb.js:127-135 | the encoding has 4·⌈n/3⌉ characters |
| Base64.EncodedHasNoPad | backend/pb_hooks/sms.pb.js:133-134 | both padding tests always come out true, so the output never contains `=` |
| Base64.StdRoundTrip | backend/pb_hooks/sms.pb.js:123-137 | the RFC 4648 encoding that the function implements decodes back to its input |
| Base64.StdLength | backend/pb_hooks/sms.pb.js:123-137 | the RFC 4648 encoding has the same length as the hook's |
| Base64.StdPadding | backend/pb_hooks/sms.pb.js:133-134 | the RFC 4648 encoding contains `=` exactly when the length is not a multiple of three |
| Base64.AgreesUpToPadding | backend/pb_hooks/sms.pb.js:123-137 | on octets, the hook's encoding is the RFC 4648 encoding with every `=` replaced by `A` |
| Base64.AgreesExactlyWhenMultipleOfThree | backend/pb_hooks/sms.pb.js:123-137 | the hook's encoding equals the RFC 4648 encoding if and only if the length is a multiple of three |
| Base64.DecodesPadAsA | backend/pb_hooks/sms.pb.js:133-134 | decoding the RFC 4648 encoding with its pads read as `A` appends (3 − n mod 3) mod 3 zero octets |
| Base64.AsWrittenDecodesWithNuls | backend/pb_hooks/sms.pb.js:123-137 | a standard decoder reads the hook's encoding as the input followed by those zero octets |
| Base64.SingleOctetExample | backend/pb_hooks/sms.pb.js:129-134 | the input "a" is encoded as "YQAA", where RFC 4648 gives "YQ==" |
| Base64.Narrow | backend/pb_hooks/sms.pb.js:128 | code units below 256 are exactly the widened octets |
| Channel.Name | backend/pb_hooks/sms.pb.js:20 | the channel name is "whatsapp" exactly for the WhatsApp channel |
| Channel.ClassifyIff | backend/pb_hooks/sms.pb.js:20 | a sender is on WhatsApp if and only if it is present and starts with `whatsapp:` |
| Channel.CleanIsStrip | backend/pb_hooks/sms.pb.js:21 | cleaning strips a present address and leaves an absent one as it is |
| Channel.StripRemovesOnePrefix | backend/pb_hooks/sms.pb.js:21 | stripping removes exactly one leading `whatsapp:` or `sms:`, and changes the address only when it has one |
| Channel.StripNotIdempotent | backend/pb_hooks/sms.pb.js:149 | stripping once leaves a second prefix in place ("sms:whatsapp:+1" becomes "whatsapp:+1") |
| Channel.StripIdempotentIff | backend/pb_hooks/sms.pb.js:149 | stripping twice equals stripping once if and only if the stripped address has no prefix left |
| Channel.Format | backend/pb_hooks/sms.pb.js:150 | formatting adds `whatsapp:` for the whatsapp channel and nothing otherwise |
| Channel.FormatStripRoundTrip | backend/pb_hooks/sms.pb.js:264-265 | formatting a stripped WhatsApp address for WhatsApp restores it, and so does formatting an unprefixed address for SMS |
| Channel.StripFormatRoundTrip | backend/pb_hooks/sms.pb.js:266-267 | stripping a formatted WhatsApp address gives the address back, and the result is classified as WhatsApp |
| Extraction.PromptEmbedsMessage | backend/pb_hooks/sms.pb.js:26-49 | the message sits verbatim between the fixed head and the fixed tail of the prompt |
| Extraction.PromptInjective | backend/pb_hooks/sms.pb.js:26-49 | different messages give different prompts |
| Extraction.AbsentMessageReadsUndefined | backend/pb_hooks/sms.pb.js:30 | an absent message produces the same prompt as the text "undefined" |
| Extraction.StripOpeningFence | backend/pb_hooks/sms.pb.js:77 | with a leading "```json" in any letter case, the tag and all whitespace after it go; otherwise nothing changes |
| Extraction.ClosingFenceIsCut | backend/pb_hooks/sms.pb.js:77 | the leftmost match of the closing pattern is the fence that ends the trimmed reply, together with the newline in front of it |
| Extraction.FencedReplyUnwrapped | backend/pb_hooks/sms.pb.js:77-79 | a fenced reply with any whitespace around its parts is cleaned to the trimmed text inside the fence |
| Extraction.UntaggedFenceKeepsOpening | backend/pb_hooks/sms.pb.js:77 | a fence without the `json` tag keeps its opening backticks |
| Extraction.UnfencedReplyTrimmed | backend/pb_hooks/sms.pb.js:77-79 | a reply with no fence at either end is only trimmed |
| Extraction.FirstSpace | backend/pb_hooks/sms.pb.js:95 | the first whitespace position has only non-space characters before it |
| Extraction.SplitCountsRuns | backend/pb_hooks/sms.pb.js:95 | `split(/\s+/)` has one more piece than the text has maximal whitespace runs |
| Extraction.SplitOfWords | backend/pb_hooks/sms.pb.js:95 | non-empty words without whitespace, joined by single spaces, split back into those words |
| Extraction.OneMoreWord | backend/pb_hooks/sms.pb.js:95 | a word and a space in front of a text add one to its word count |
| Extraction.WordCountEdges | backend/pb_hooks/sms.pb.js:95 | the empty message counts one word, and whitespace at both ends adds two more |
| Extraction.ParsedIff | backend/pb_hooks/sms.pb.js:72-79 | the reply is used, as parsed, if and only if the call answered 200 with a text whose cleaned form parses |
| Extraction.FallbackWhenUnusable | backend/pb_hooks/sms.pb.js:83-97 | any other outcome falls back to the minimal record; without a message, building that record throws |
| Extraction.FallbackShape | backend/pb_hooks/sms.pb.js:86-96 | the fallback has the nine extracted fields, seven of them `null`, empty insights and a word count of runs + 1 |
| Entries.FieldListed | backend/pb_migrations/1728393600_created_entries.js:8-171 | every field of the record type is one of the twelve fields of the schema |
| Entries.Record.Set | backend/pb_hooks/sms.pb.js:103-114 | setting a field changes that field and no other |
| Entries.BuildRecord | backend/pb_hooks/sms.pb.js:100-114 | the record is built field by field into the entry of the message and its extraction |
| Entries.EntryHasEveryField | backend/pb_hooks/sms.pb.js:103-114 | the entry sets all twelve fields |
| Entries.EntryCopiesExtraction | backend/pb_hooks/sms.pb.js:103-114 | extracted fields are copied from the model's JSON as read; the hook sets the time, the text and a `null` response time |
| Entries.ExtractedNamesAsked | backend/pb_hooks/sms.pb.js:34-46 | the fields copied from the extraction are exactly the keys the prompt asks for |
| Entries.NonObjectLeavesFieldsUndefined | backend/pb_hooks/sms.pb.js:105-114 | a reply that parses to something other than an object leaves every extracted field `undefined` |
| Entries.FallbackConforms | backend/pb_migrations/1728393600_created_entries.js:8-171 | the fallback entry of a non-empty message fits the schema |
| Entries.FallbackWordCountConforms | backend/pb_migrations/1728393600_created_entries.js:158-169 | the fallback word count is an integer, as the schema demands |
| Entries.FallbackNullConforms | backend/pb_hooks/sms.pb.js:86-93 | the seven unknown fields of the fallback entry are `null` |
| Entries.MoodOutOfRangeIsCopied | backend/pb_migrations/1728393600_created_entries.js:34-46 | a mood of 7 from the model is copied unchanged, and the resulting record does not fit the 1–5 range |
| Handlers.Host.Complete | backend/pb_hooks/sms.pb.js:53-70 | asking the model logs the request and returns the world's answer |
| Handlers.Host.Save | backend/pb_hooks/sms.pb.js:116 | saving logs the record exactly when the store accepts it |
| Handlers.Host.Post | backend/pb_hooks/sms.pb.js:153-162 | a post must carry the Basic header of its own credentials; it logs the message and returns the provider's answer |
| Handlers.Authorization | backend/pb_hooks/sms.pb.js:145-146 | the header is "Basic " followed by the hook's encoding of `sid:token` |
| Handlers.Octets | backend/pb_hooks/sms.pb.js:145 | a text of one-octet characters is the widening of its octets |
| Handlers.StandardHeaderIff | backend/pb_hooks/sms.pb.js:255-257 | the header is the RFC 7617 one if and only if `sid:token` has a multiple of three characters |
| Handlers.TwilioShapedCredentials | backend/pb_hooks/sms.pb.js:249-257 | with a 34-character account id and a 32-character token, the header is not the standard one |
| Handlers.Store | backend/pb_hooks/sms.pb.js:51-116 | asks the model, builds the record and saves it; `ok` holds exactly when a readable extraction's record was stored |
| Handlers.HandleWebhook | backend/pb_hooks/sms.pb.js:11-178 | the webhook's status and effects are those of `Webhook` |
| Handlers.SendConfirmation | backend/pb_hooks/sms.pb.js:139-167 | posts the confirmation built from the settings and the sender, and ignores the answer |
| Handlers.WebhookSavesBeforeConfirming | backend/pb_hooks/sms.pb.js:11-178 | the status is 200 or 500; the model is asked first; 200 means one record saved and then the confirmation posted; 500 means nothing else was done |
| Handlers.OutageStoresFallback | backend/pb_hooks/sms.pb.js:83-116 | when the model is unusable, the fallback entry is stored and the reply is 200 |
| Handlers.OutageWithSchemaStore | backend/pb_hooks/sms.pb.js:83-116 | a store that takes exactly the records its schema admits accepts every non-empty message while the model is down |
| Handlers.EmptyMessageRefused | backend/pb_hooks/sms.pb.js:104 | such a store refuses an empty message, whatever the model says, and the reply is 500 |
| Handlers.EmptyTextNonConforming | backend/pb_migrations/1728393600_created_entries.js:21-33 | a record with empty text does not fit the schema, because the text is required |
| Handlers.AbsentMessageOutage | backend/pb_hooks/sms.pb.js:95 | with no message and an unusable model, building the fallback throws: 500, nothing stored |
| Handlers.NullReplyFails | backend/pb_hooks/sms.pb.js:105 | a reply that parses to `null` makes reading its fields throw: 500, nothing stored |
| Handlers.ConfirmationAddressing | backend/pb_hooks/sms.pb.js:148-160 | the confirmation goes to the sender as received, carries the check-mark text, and comes from the cleaned provider number, prefixed only for WhatsApp |
| Handlers.HandleStatusCallback | backend/pb_hooks/sms.pb.js:183-206 | every delivery report, including one that carries an error code, is acknowledged with 200, and nothing is asked, stored or sent |
| Handlers.HandleSendPrompt | backend/pb_hooks/sms.pb.js:212-339 | the send-prompt reply and effects are those of `SendPrompt` |
| Handlers.CredentialsGuard | backend/pb_hooks/sms.pb.js:236-247 | once the channel has been read, a missing account id or token gives the credentials error and sends nothing; a message is posted, exactly one, if and only if the fields are usable and both credentials are set |
| Handlers.NonStringFieldThrows | backend/pb_hooks/sms.pb.js:232-236 | a channel that is truthy but not a string throws before the credentials are checked, and such a recipient throws before the post; either way the reply is 500 and nothing is sent |
| Handlers.PromptSucceedsIff | backend/pb_hooks/sms.pb.js:232-334 | the request succeeds if and only if both fields are usable as strings, the credentials are set and the provider answers 200 or 201 |
| Handlers.PromptAddressing | backend/pb_hooks/sms.pb.js:263-276 | the prompt is the check-in question, carries the callback address, and goes to the cleaned recipient, prefixed only for whatsapp |
| Handlers.CallbackUrlShape | backend/pb_hooks/sms.pb.js:260-261 | the callback address is the public address, or the default host, followed by the callback path |
| Handlers.UserMessageFacts | backend/pb_hooks/sms.pb.js:316-326 | the message shown is never empty; a known error code takes precedence over the provider's message, which takes precedence over the generic text |
| Handlers.CodeComparedStrictly | backend/pb_hooks/sms.pb.js:318 | an error code sent as the string "21608" is not recognised |
| Handlers.HandleTestInbound | backend/pb_hooks/sms.pb.js:345-474 | the test endpoint's reply and effects are those of `TestInbound` |
| Handlers.TestFieldsGuard | backend/pb_hooks/sms.pb.js:349-356 | a sender or channel that is truthy but not a string fails the request before the model is asked; otherwise the model is asked |
| Handlers.TestMirrorsWebhook | backend/pb_hooks/sms.pb.js:384-453 | with a usable sender and channel, a non-empty message is stored by the test endpoint exactly when the webhook stores it, with the same effects apart from the confirmation |
| Handlers.TestNeverSends | backend/pb_hooks/sms.pb.js:457-468 | the test endpoint never posts a message |
| Handlers.TestDefaultMessage | backend/pb_hooks/sms.pb.js:348 | an absent or empty message is replaced by the default one |
| Handlers.DefaultMessageWords | backend/pb_hooks/sms.pb.js:431 | the default message counts nine words |
| Handlers.NineWords | backend/pb_hooks/sms.pb.js:431 | nine words joined by single spaces count as nine |
| Handlers.TestOutageStored | backend/pb_hooks/sms.pb.js:349-453 | with a schema store and an unusable model, a simulated message is stored if and only if the sender and the channel are usable |
| WeeklyView.HoursBelowIs | frontend/src/components/WeeklyView.jsx:41 | the hours counted from 8 up to h are exactly 8..h−1, h − 8 of them |
| WeeklyView.EmptyGrid | frontend/src/components/WeeklyView.jsx:34-44 | the empty grid has a row for each day key, each with a cell for exactly the hours 8 to 22 |
| WeeklyView.Heatmap.constructor | frontend/src/components/WeeklyView.jsx:34-44 | the nested loops build exactly the empty grid |
| WeeklyView.Heatmap.Add | frontend/src/components/WeeklyView.jsx:48-58 | placing an entry updates the heatmap in place to `Place` of the old one, keeping a cell for every hour |
| WeeklyView.Heatmap.Fill | frontend/src/components/WeeklyView.jsx:47-59 | placing the entries in order gives `PlaceAll` of the old heatmap |
| WeeklyView.HeatmapData | frontend/src/components/WeeklyView.jsx:33-59 | the heatmap is the empty grid of the days filled with the entries |
| WeeklyView.PlaceAll | frontend/src/components/WeeklyView.jsx:47-59 | placing entries keeps the days and a cell for every hour |
| WeeklyView.EmptyGridShape | frontend/src/components/WeeklyView.jsx:36-43 | a week's grid has its seven days, and each row has fifteen empty cells, for hours 8 to 22 |
| WeeklyView.EmptyRowShape | frontend/src/components/WeeklyView.jsx:41-43 | the empty row has one empty cell for each hour from 8 to 22 |
| WeeklyView.PlaceOutsideIgnored | frontend/src/components/WeeklyView.jsx:51 | an entry of a day not shown, or of an hour outside 8..22, changes nothing |
| WeeklyView.PlaceChangesOneCell | frontend/src/components/WeeklyView.jsx:51-57 | placing an entry changes at most its own cell, which becomes the merge of the old cell and the mood |
| WeeklyView.MergeTwoIsMean | frontend/src/components/WeeklyView.jsx:52-56 | two moods in one hour give their mean |
| WeeklyView.MergeThreeWeights | frontend/src/components/WeeklyView.jsx:52-56 | with three moods in one hour, the last counts for half, so the result is the mean only when a + b = 2c |
| WeeklyView.MergeNullMood | frontend/src/components/WeeklyView.jsx:56 | a `null` mood halves an occupied cell and leaves an empty cell empty |
| WeeklyView.HeatmapWithinScale | frontend/src/components/WeeklyView.jsx:47-59 | when every mood is in 1..5, so is every cell of the heatmap |
| WeeklyView.PlaceAllWithin | frontend/src/components/WeeklyView.jsx:47-59 | placing moods from lo..hi keeps every cell in lo..hi |
| WeeklyView.DailyStatsAt | frontend/src/components/WeeklyView.jsx:62-77 | the i-th statistic belongs to the i-th day and counts its entries; with moods in 1..5, it has an average exactly when the day has a mood, and the average lies in 1..5 |
| WeeklyView.DayMoodsIff | frontend/src/components/WeeklyView.jsx:64-69 | a day's entries have a mood exactly when some entry of that day has one |
| WeeklyView.DayEntries | frontend/src/components/WeeklyView.jsx:64-66 | a day's entries are entries of that day |
| WeeklyView.CountIsOccurrences | frontend/src/components/WeeklyView.jsx:74 | a day's count is the number of entries with its key |
| WeeklyView.OccurrencesSum | frontend/src/components/WeeklyView.jsx:62-77 | for distinct days, the counts add up to the number of entries in the week |
| WeeklyView.AverageOfDay | frontend/src/components/WeeklyView.jsx:68-75 | a day has an average exactly when it has a mood; it is their mean and lies within their range |
| WeeklyView.NoMoodNoAverage | frontend/src/components/WeeklyView.jsx:68-69 | a day without a mood has no average |
| WeeklyView.MeanWithin | frontend/src/components/WeeklyView.jsx:69 | the mean of values in lo..hi lies in lo..hi |
| WeeklyView.MoodColorBands | frontend/src/components/WeeklyView.jsx:79-85 | the colour bands are ≥ 4 green, 3–4 yellow, 2–3 orange and < 2 red; `null` is gray |
| WeeklyView.MoodColorMonotone | frontend/src/components/WeeklyView.jsx:79-85 | a higher mood never gets a lower band |
| WeeklyView.TruthyMoods | frontend/src/components/WeeklyView.jsx:220 | the moods averaged for the week are non-zero, each is the mood of some entry, and every entry's truthy mood is among them |
| WeeklyView.WeekAverageDefined | frontend/src/components/WeeklyView.jsx:220-221 | the week's average is defined if and only if some entry has a truthy mood |
| WeeklyView.WeekAverageOfPositiveMoods | frontend/src/components/WeeklyView.jsx:220 | when every mood is positive, the week averages all of them |
| DailyView.EnergyValue | frontend/src/components/DailyView.jsx:40 | the energy on the chart is 1..3 when present |
| DailyView.EnergyValueIff | frontend/src/components/DailyView.jsx:40 | H, M and L plot as 3, 2 and 1, and any other energy plots nothing |
| DailyView.EnergyLabelIff | frontend/src/components/DailyView.jsx:50-55 | H, M and L are labelled High, Medium and Low, and anything else N/A |
| DailyView.LabelMatchesValue | frontend/src/components/DailyView.jsx:40-55 | the label and the chart value agree: N/A exactly when nothing is plotted |
| DailyView.EnergyCaseSensitive | frontend/src/components/DailyView.jsx:40-55 | "h" and "high" are neither plotted nor labelled |
| DailyView.ReverseAt | frontend/src/components/DailyView.jsx:35-36 | the reversed copy holds the i-th element from the end at position i |
| DailyView.ReverseReverse | frontend/src/components/DailyView.jsx:35-36 | reversing twice gives the original |
| DailyView.PointsAt | frontend/src/components/DailyView.jsx:37-41 | the i-th point is the point of the i-th entry |
| DailyView.ChartDataAt | frontend/src/components/DailyView.jsx:34-41 | the i-th chart point is the point of the i-th entry from the end |
| DailyView.ChartIsChronological | frontend/src/components/DailyView.jsx:23 | entries loaded newest first are charted oldest first |
| DailyView.ChartEnds | frontend/src/components/DailyView.jsx:34-41 | the chart starts with the oldest entry and ends with the newest |
| DailyView.MoodColorBands | frontend/src/components/DailyView.jsx:43-48 | the badge is gray for no mood or 0, green for ≥ 4, yellow for 3–4, and red otherwise |
| DailyView.ColorsAgainstWeek | frontend/src/components/DailyView.jsx:43-48 | the two views agree except that 2–3 is red here and orange there; no mood is bg-gray-200 here and bg-gray-100 there; 0 is gray here and red there |
| DailyView.DrawnBadgeColored | frontend/src/components/DailyView.jsx:105-107 | a badge that is drawn is green, yellow or red, never gray |
| DailyView.PanelIff | frontend/src/components/DailyView.jsx:148 | the insight panel is shown if and only if the insights are truthy and have at least one key |
| DailyView.InsightPrecedence | frontend/src/components/DailyView.jsx:151 | the panel shows the observation, else the notable change, else the energy/mood mismatch |
| DailyView.InsightTextTruthyIff | frontend/src/components/DailyView.jsx:151 | the panel's text is truthy if and only if one of the three insight keys holds a truthy value |
| DailyView.OtherKeysEmptyPanel | frontend/src/components/DailyView.jsx:148-151 | insights with only other keys show an empty panel |
| DailyView.FallbackInsightsHidden | frontend/src/components/DailyView.jsx:148 | the fallback's empty insights, absent insights and `null` insights show no panel |

## Left out

- Networking, the environment and the store are parameters. `$http.send`, `$os.getenv` and `saveRecord` are represented by a `World` (the model's answer, `JSON.parse`, whether the store accepts a record), a `ProviderAnswer` and a `Config`. An unset variable reads as the empty string.
- `JSON.parse` is an abstract function. The completion response is reduced to its status and to whether `content[0].text` is a string. Request bodies built with `JSON.stringify` are not modelled.
- The request to the model is logged as `Asked(body)`; its fixed headers, model name and token limit are not modelled. The text it carries is `Extraction.Prompt`.
- The `Authorization` header is not stored in `Handlers.Outbound`. The message carries the credentials, and `Host.Post` requires the header derived from them. `encodeURIComponent` and the form encoding of bodies are not modelled; the form fields are kept as strings.
- The webhook's TwiML bodies, the JSON bodies of the other replies, and logging (`console.log`) are left out. Replies are modelled by their status and some of the values they report. `PromptSent` drops the debug values (the provider status, `messageSid`, `messageStatus`, `errorCode`, `errorMessage`). `Rejected` drops the raw provider body. `SendFailed` drops the error message. `TestCreated` drops the record id and the timestamp.
- The send-prompt fields and the test endpoint's `from` and `channel` are JSON values, and a truthy non-string there makes the handler throw.
- Handlers.Webhook: `From` and `Body` are taken to be strings or absent. PocketBase's form binding can turn a form value that reads as a number or a boolean (a reply of just `4`, say) into a number or a boolean. Such a `Body` would be rendered into the prompt and stored as that rendering. With the model unusable, the fallback's `body.split` would throw and the reply would be 500 with nothing stored. `OutageStoresFallback` and `OutageWithSchemaStore` are stated for string bodies only.
- Routing and the guest/admin authorisation of the routes are left out.
- The clock is an input. `new Date().toISOString()` is the parameter `now`. Date formatting and the day key and hour of an entry (`format`, `startOfDay`, `getHours`) are inputs on the dashboard entries.
- Moods are real numbers, not IEEE doubles. NaN, rounding, `toFixed(1)` and `parseFloat` are not modelled, and `DailyStats` keeps the unrounded average.
- The React rendering, state hooks and loading of records from PocketBase are left out. Only the values computed for display are modelled.
- Handlers.HandleStatusCallback: the report's fields only reach log lines, and nothing in its body can throw, so the 500 branch of its catch is not modelled.
- Handlers.TestInbound: the `message` field is taken to be absent or a string. A truthy number or object would be rendered by the template, stored as the text and make the fallback's `split` throw, and number-to-text conversion is not modelled.
- Entries.Conforms: describes what the schema admits unchanged. PocketBase's own conversions (for example, text to number) are not modelled.
- Base64.Encode: models the two copies of the encoder (in the webhook and in the send-prompt handler) once, since they are the same.

