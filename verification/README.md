# Models of c-client

c-client is the mail access library of UW IMAP. This project models its most intricate
algorithms in Dafny and proves what they promise, for every input, every run and every
word width:

- **Threading** (`mail.c`, with the hash table of `misc.c`): the REFERENCES algorithm of
  section 3 of RFC 5256 on linked containers and nodes, from the messages to the sorted
  threads. Containers and nodes are numbered cells whose links are rewritten in place.
  `HashTables`, `Containers`, `Linking` and `Growing` are steps 1 and 2, `Roses` and
  `Pruning` step 3, `ThreadNodes` the conversion to nodes, `Threads` and `ThreadSort`
  steps 4 and 6, `Merging`, `SubjectMerge` and `MergeNodes` step 5. `Linkages` is step 1
  and `Threading` the whole algorithm on values, and `References` proves that the linked
  structures compute it. What it does is told by `Citing` (which links the references
  make), `Ancestors` (a message's ancestors through all steps), `ThreadOrder` (the order of
  siblings), `SubjectThreads` (the threads of messages without references) and
  `RootSubjects` (the subjects of the roots in the end).
- **Search programs** (`imap4r1.c`, `mail.c`): the compiler from nested search programs to
  IMAP SEARCH text, the local interpreter of the same programs, and the grammar and
  meaning of section 6.4.4 of RFC 3501 between the two (`SearchGrammar`, `SearchProgram`,
  `SearchCommand`, `SearchMeaning`). What each field of a program sends and finds is told
  by `SearchSent` and `SearchAsked`.
- **MD5 and HMAC** (`auth_md5.c`): the incremental digest on unsigned longs of 32 or 64
  bits, masked lazily, against RFC 1321 and RFC 2104 (`Bits`, `Md5Words`, `Md5Transform`,
  `Md5`); digests of RFC 1321's test suite are worked out on bit vectors (`Md5Bits`,
  `Md5Suite`).
- **Message cache and UIDs** (`mail.c`, `imap4r1.c`): the cache array of an IMAP stream
  against the server's mailbox over every story of untagged responses (`Mailboxes`,
  `MessageCache`), and UID lookup by binary search and UID sequences (`UidSets`).
- **Newsrc state** (`newsrc.c`): writing, reading and counting the ranges of articles that
  have been read (`Newsrc`).
- **MIME codecs** (`rfc822.c`): base64 and quoted-printable with their buffers (`Base64`,
  `QuotedPrintable`, `Buffers`), and the scan of a multipart body (`Multipart`).
- **Address lists** (`rfc822.c`): the printer and the parser, cursor by cursor
  (`AddressText`, `AddressParser`).
- **String search** (`misc.c`) and **dates** (`mail.c`): `StringSearch`, `Calendar`,
  `Dates`; `Texts` reads and writes numbers.

`Messages`, `Sequences` and `Machine` hold what several parts share.

Code that changes things step by step is modelled by methods on arrays, on objects or on
maps of links, each proved against a specification on values; what c-client promises is
then proved about the specification. Ghost parameters of some methods (`f`, `rs`, `tail`,
`items` and the like) name the value that the links or the text stand for.

## What turned out false, and when it holds

- `OLDER` and `YOUNGER` subtract the interval from the clock in an unsigned long, which
  wraps if the interval is longer than the clock has run. The local interpreter agrees with
  RFC 5032 exactly if it is not, or if the message arrives so late that time of arrival and
  interval together reach past the end of the clock and the present
  (`SearchMeaning.AgesMean`; `SearchMeaning.AgesWrap` is a message for which both fail). A
  program with both ages is right also if one age fails and the other is not met anyway, and
  only then (`SearchMeaning.BothAgesMean`).
- The length that `md5_final` appends keeps 64 bits of the count only with 32-bit longs. With
  64-bit longs it is that of RFC 1321 exactly if the count of bytes divided by 2^64 is
  divisible by 2^29 (`Md5.LengthExact`; not so for 2^64 bytes, `Md5.LengthWraps`).
- Printing and parsing an address list changes it exactly if a personal name is empty, a
  name without special characters has blanks around it, or a domain starts with `@` and is
  not the default one (`AddressParser.ListSame`; `AddressParser.BlankLost` for the name " x").
- `mail_parse_date` rejects what `mail_date` writes exactly if the hours, minutes or seconds
  are out of range (23, 59 and 60), and loses the zone exactly if its minutes are 60 or more
  (`Dates.PrintAndParse`; `Dates.LateSecond` for 61 seconds, `Dates.LongZone` for a zone of
  60 minutes).
- Step 4 sorts the roots but not the children of a dummy, as section 3 of RFC 5256 asks.
  Step 5 leaves one root per subject (`Merging.OneRootPerSubject`), but step 6 may then put
  another child first in a dummy and give two roots one subject: `LostParent` runs the whole
  algorithm on three messages for which it does. The threads that are returned have one
  root per subject exactly if the leaders of the subjects before step 4, told by their
  earliest messages, differ (`RootSubjects.FinishedLeaders`), as they do if the first child
  of every dummy has the subject of its earliest (`RootSubjects.InOrderOneRoot`).

## Model

| member | source | states |
|---|---|---|
| HashTables.HashTab.Lookup | src/c-client/misc.c:346-352 | A chained table refines a map: the first entry on the chain is what the map holds, and nothing is found otherwise. |
| HashTables.HashTab.Add | src/c-client/misc.c:363-372 | The new entry hides an older one of its name, and a walk over the buckets meets one entry more. |
| HashTables.HashTab.Replace | src/c-client/mail.c:5034 | Storing through the slot that a lookup found changes that name's data and no other's. |
| HashTables.HashTab.Reset | src/c-client/misc.c:313-323 | Afterwards the table holds nothing and has its old size. |
| HashTables.WalkPush | src/c-client/misc.c:363-372 | The data met on a walk over all buckets are those before and the new entry's. |
| Containers.Pool.CheckChild | src/c-client/mail.c:5261-5269 | True exactly when the mother exists and is the daughter or lies anywhere below her. |
| Containers.Pool.LinkRef | src/c-client/mail.c:4958-4964 | The later reference gets the earlier as its parent exactly if it had none and no cycle would arise; no other parent changes and the links stay a forest. |
| Containers.Pool.Relink | src/c-client/mail.c:4967-4989 | The container ends below the last reference, or as a root if there is none or it lies below the container; no other parent changes and the links stay a forest. |
| Containers.Pool.Detach | src/c-client/mail.c:4969-4976 | Taking a container from its parent leaves the family of links with it cut off and everything else in place. |
| Containers.Family.HangOk | src/c-client/mail.c:4958-4989 | Hanging a root below a container that is not below it keeps the family acyclic, with every container once among the children of its parent. |
| Containers.Family.CutOffOk | src/c-client/mail.c:4969-4976 | So does cutting a container off. |
| Containers.Family.CutOffBelow | src/c-client/mail.c:4969-4981 | What lies below a container that is cut off is what lay there before, so the cycle test may follow. |
| Containers.Family.ReferParent | src/c-client/mail.c:4958-4964 | Step 1A on values gives the later reference a parent exactly if it has none and no cycle arises, and no other container. |
| Containers.Family.SettleParent | src/c-client/mail.c:4967-4989 | Step 1B on values replaces whatever parent the container had by the last reference, or by none if there is no such reference or it lies below the container. |
| Linkages.NameBound | src/c-client/mail.c:4937-4948 | After the first pass exactly the unique strings are known, and each is bound to the container of the last message that goes by it. |
| Linking.Linker.Enroll | src/c-client/mail.c:4937-4948 | Every message gets a container of its own, in order, and table and family of links are those of the first pass on values: a message goes by its id unless the id is missing or taken, and the string is bound to its container. |
| Linking.Linker.LookupAndAdd | src/c-client/misc.c:383-395 | Returns the container that the name is bound to, a new one without links that is bound to it if there was none; nothing else is bound or linked. |
| Linking.Linker.LinkReferences | src/c-client/mail.c:4952-4965 | Table and links after the references of a message are those of step 1A on values, pair by pair, and the last one's container is returned. |
| Linking.Linker.LinkMessage | src/c-client/mail.c:4966-4989 | Step 1B for the message's container; every other parent stays. |
| Linking.Linker.Link | src/c-client/mail.c:4937-4991 | After step 1 the table, the family of links and the children's order are exactly those that the fold of steps 1A and 1B over the messages makes of the references; the first containers are those of the messages, the others are dummies. |
| Citing.NameGiven | src/c-client/mail.c:4944-4946 | A message goes by its id exactly if it has one that no earlier message goes by. |
| Citing.LinksExplained | src/c-client/mail.c:4951-4990 | Every link that step 1 leaves joins two neighbours in the references of some message, or its last reference and the message itself. |
| Citing.ReplyLinked | src/c-client/mail.c:4951-4990 | For good, the last message of a name hangs below its last reference, unless it has none or that lies below the message at the time; then it becomes a root, for later references to link. |
| Citing.PairLinked | src/c-client/mail.c:4954-4963 | Of two neighbouring references the later one, if no message goes by its name any more, keeps for good the parent it has, or gets the earlier one for good if it has none and that is not below it. |
| Citing.InTimeLinked | src/c-client/mail.c:4951-4990 | When the references agree with some order in time the guards against cycles never matter: every last message of a name hangs below its last reference. |
| Growing.ChainRoots | src/c-client/mail.c:4993-5001 | Step 2 chains exactly the containers without a parent, in the order of the walk over the buckets, and returns the first. |
| Growing.RootsHeld | src/c-client/mail.c:4993-5001 | The links then hold one list of trees in which every container stands exactly once. |
| Growing.TreesOver | src/c-client/mail.c:4950-5001 | In these trees a message is above another exactly if it is in the links of step 1. |
| Pruning.PruneDummyWork | src/c-client/mail.c:5224-5253 | In place, at one list position: the container there and everything below is pruned until a container is found to stay; the links hold the result although only the first promoted child gets a new parent. |
| Pruning.PruneDummy | src/c-client/mail.c:5206-5214 | In place: the links hold the pruned list, touch nothing else, and its head is returned; terminates because fewer containers are reached. |
| Pruning.PruneKeepsMessages | src/c-client/mail.c:5206-5253 | Pruning keeps the preorder of the messages. |
| Pruning.PruneKeepsAncestors | src/c-client/mail.c:5206-5253 | Pruning keeps which message is above which. |
| Pruning.PruneShape | src/c-client/mail.c:5240-5252 | Afterwards dummies stand only at the root and have at least two children, all trees of messages. |
| ThreadNodes.C2Node | src/c-client/mail.c:5279-5296 | The nodes are new, form the same trees and show the same messages as the containers. |
| ThreadSort.TreeIsLed | src/c-client/mail.c:5340-5349 | For the top node of every proper thread the message that the comparison takes, its own or that of its first child, exists, and it is the one that leads the thread shown. |
| ThreadSort.SortSiblings | src/c-client/mail.c:5012-5020 | Relinking a list through the buffer permutes its trees into order and touches nothing below or beside them. |
| ThreadSort.MailThreadSort | src/c-client/mail.c:5304-5321 | In place, at every level; the buffer is never overrun and the nodes show the sorted threads. |
| Threads.SortFacts | src/c-client/mail.c:5012-5020 | The sorted threads are an ordered permutation. |
| Threads.SortedIsUnique | src/c-client/mail.c:5340-5349 | Date and number determine the order, so it does not matter how the C library sorts. |
| Threads.SortAllInOrder | src/c-client/mail.c:5304-5321 | After step 6 siblings are in order at every level. |
| Threads.SortAllMessages | src/c-client/mail.c:5304-5321 | Sorting everything loses and doubles no message. |
| Threads.AtLeastOneMessageEach | src/c-client/mail.c:5011-5014 | A list has at most as many threads as messages, so the buffer of one entry per message is enough. |
| MergeNodes.FillTable | src/c-client/mail.c:5025-5035 | Step 5B leaves, for every subject, the entry of the root that stands for it by the rules of RFC 5256. |
| MergeNodes.AdoptRoot | src/c-client/mail.c:5042-5068 | In place: a root, or a dummy's children, become the youngest children of the root that stands for the subject, and the scan goes on at the right node. |
| MergeNodes.PairUnderDummy | src/c-client/mail.c:5069-5090 | In place: exactly the links change that put a new dummy over the table's root and the current one, also when these are neighbours or the first. |
| MergeNodes.MergeRoot | src/c-client/mail.c:5038-5095 | One turn of step 5C is one step of merging on values, with root, sister, table and scan position still right. |
| MergeNodes.MergeSubjects | src/c-client/mail.c:5037-5095 | Step 5C in place shows the merged threads. |
| Merging.PickStands | src/c-client/mail.c:5026-5035 | If any root of a subject is a dummy the table's entry is the first of these; else it is the first that is no reply, if there is one. |
| Merging.NewDummy | src/c-client/mail.c:5072-5090 | A new dummy is made only of two messages, and only when the table's entry comes before the current root. |
| Merging.OneRootPerSubject | src/c-client/mail.c:5037-5095 | After merging no two roots have the same subject, unless it is empty. |
| Merging.MergeConserves | src/c-client/mail.c:5037-5095 | Merging keeps the messages, all of them and those of the roots of each subject. |
| References.LinkAll | src/c-client/mail.c:4937-5001 | Steps 1 and 2 leave the trees of the containers that the fold over the references makes roots, chained in the order of the walk. |
| References.PruneAll | src/c-client/mail.c:5008-5010 | Step 3 and the conversion give nodes that show the pruned forest. |
| References.SortRoots | src/c-client/mail.c:5011-5022 | Step 4 puts the roots in order and loses nothing. |
| References.MergeRoots | src/c-client/mail.c:5023-5096 | Step 5 merges the roots and loses nothing. |
| References.ThreadReferences | src/c-client/mail.c:4937-5101 | End to end: the nodes returned show exactly the threads that the algorithm on values makes of the messages and their references, with every message exactly once, and at every level the earlier of two siblings has the smaller date, or the same date and the smaller number. |
| Threading.AnyRootOrder | src/c-client/mail.c:4993-5022 | The order in which the hash table's buckets yield the roots does not matter to the threads that are returned. |
| Threading.ThreadedComplete | src/c-client/mail.c:4937-5101 | The threads of any messages hold each of them exactly once, have dummies only at the root over messages, and are in order at every level. |
| ThreadOrder.ThreadedByDate | src/c-client/mail.c:5340-5348 | Of two siblings anywhere in the threads, each taken by its own message or by that of a dummy's first child, the earlier has the smaller date, or the same date and the smaller number. |
| Ancestors.SortAllKeepsAbove | src/c-client/mail.c:5304-5321 | Sorting keeps which message is above which. |
| Ancestors.MergeAbove | src/c-client/mail.c:5027-5095 | Merging loses no ancestor, and adds one pair exactly if the upper message is an original root that stands for its subject, and the lower one is in the thread of a reply root of that subject before which no other original has it. |
| Ancestors.FinishedAbove | src/c-client/mail.c:5020-5101 | Sorting, merging and sorting again keep every ancestor and add exactly those of the merge. |
| Ancestors.ThreadAncestors | src/c-client/mail.c:4937-5101 | End to end: a message ends above another exactly if step 1 linked it above, or it is an original root that takes in the thread of a reply root of its subject in which the other is. |
| Ancestors.ReplyBelow | src/c-client/mail.c:4937-5101 | End to end: when the references agree with some order in time, every message ends below the message that its last reference names. |
| SubjectThreads.SubjectAncestors | src/c-client/mail.c:4937-5101 | Without references a message ends above another exactly if it is an original, the first of its subject by date and number, the other is a reply of that subject, and no other original of it is earlier than the reply. |
| RootSubjects.FinishedLeaders | src/c-client/mail.c:5011-5101 | No two roots of the threads returned share a subject, unless it is empty, exactly if the leaders of the subjects of the pruned roots have different subjects by their earliest messages. |
| RootSubjects.ThreadedOneRoot | src/c-client/mail.c:4937-5101 | The same for the threads of any messages, from the end of step 3. |
| RootSubjects.FinishedOneRoot | src/c-client/mail.c:5098-5101 | The same told from the roots after step 5, whatever the numbers of their messages. |
| RootSubjects.InOrderOneRoot | src/c-client/mail.c:5011-5101 | One root per subject is returned if every dummy starts with a child of the subject of its earliest child. |
| LostParent.TwoRootsOneSubject | src/c-client/mail.c:4937-5101 | Two answers to a lost message and a third message give threads in which two roots have the same subject. |
| SearchGrammar.SetRead | src/c-client/imap4r1.c:3562-3580 | A written sequence set is read back by the grammar of RFC 3501. |
| SearchGrammar.StringRead | src/c-client/imap4r1.c:3278-3314 | A string written as an atom or quoted is read back. |
| SearchGrammar.DateRead | src/c-client/imap4r1.c:3627-3632 | A written date is read back. |
| SearchGrammar.KeyRead | src/c-client/imap4r1.c:3376-3515 | The text of any nested search key is read back as that key, whatever follows. |
| SearchGrammar.ParsePrinted | src/c-client/imap4r1.c:3376-3515 | The text of a list of keys parses to that list and nothing is left over. |
| SearchProgram.PackFacts | src/c-client/mail.c:4094-4098 | Packed dates fit an unsigned short, unpack to themselves and compare like dates. |
| SearchCommand.Command.Trim | src/c-client/imap4r1.c:3525-3537 | Appends, and removes exactly a leading "ALL " if something follows it. |
| SearchCommand.TrimKeeps | src/c-client/imap4r1.c:3525-3537 | Trimming never takes away part of a key, and always takes the leading "ALL" once a key is there. |
| SearchCommand.Command.SendSet | src/c-client/imap4r1.c:3550-3582 | The text grows by the key of the set, first and last in the order given. |
| SearchCommand.Command.SendFlags | src/c-client/imap4r1.c:3407-3418 | The text grows by one key for every flag asked for or against. |
| SearchCommand.Command.SendDate | src/c-client/imap4r1.c:3627-3632 | The text grows by the key of the unpacked date. |
| SearchCommand.Command.SendString | src/c-client/imap4r1.c:3278-3314 | Writes an atom if the string is one, else a quoted string. |
| SearchCommand.Command.SendList | src/c-client/imap4r1.c:3606-3618 | The text grows by one key per string. |
| SearchCommand.Command.SendHeaders | src/c-client/imap4r1.c:3488-3496 | The text grows by one HEADER key per line. |
| SearchCommand.Command.SendOr | src/c-client/imap4r1.c:3497-3505 | The text grows by an OR of the two compiled programs. |
| SearchCommand.Command.SendNots | src/c-client/imap4r1.c:3506-3511 | The text grows by a NOT of each compiled program. |
| SearchCommand.Command.SendProgram | src/c-client/imap4r1.c:3376-3515 | What is written, after all trimming and recursion, is the text of the program's keys, or ALL if there are none. |
| SearchCommand.RenderTrimmed | src/c-client/imap4r1.c:3512-3514 | The last trim leaves exactly the text of the keys. |
| SearchMeaning.InSet | src/c-client/mail.c:3426-3445 | A number is found exactly if a range, in either order, has it. |
| SearchMeaning.CheckSets | src/c-client/mail.c:3424-3446 | The message passes exactly if it matches the keys that are sent for the sets, a lone 1:nmsgs being sent as nothing. |
| SearchMeaning.SearchKeyword | src/c-client/mail.c:3850-3866 | By keyword bits: all the keywords are set; or none is, unknown ones never being set. |
| SearchMeaning.CheckFlags | src/c-client/mail.c:3485-3497 | The twelve flag tests accept exactly what the flag keys select. |
| SearchMeaning.CheckDates | src/c-client/mail.c:3502-3508 | Comparing packed dates is comparing dates, for arrival and Date: header. |
| SearchMeaning.AgesMean | src/c-client/mail.c:3509-3513 | The subtraction from the clock tells older and younger messages as RFC 5032 does exactly if the interval does not reach back before the start of the clock, or the message is so new that the wrapped difference agrees. |
| SearchMeaning.BothAgesMean | src/c-client/mail.c:3509-3513 | The two tests of one program together agree with RFC 5032 exactly if both fit, or if one does not fit and the other is not met by the message, for all intervals of unsigned longs. |
| SearchMeaning.AgesWrap | src/c-client/mail.c:3511-3512 | With an interval of ten seconds at the fifth second of the clock, a message is told older that is not, and not younger that is. |
| SearchMeaning.CheckHeaders | src/c-client/mail.c:3560-3599 | All header lines match as their HEADER keys ask. |
| SearchMeaning.SearchMessage | src/c-client/mail.c:3415-3613 | The interpreter accepts a message exactly if it matches all keys that the program is compiled to, through nested ORs and NOTs. |
| SearchMeaning.CompileAndSearch | src/c-client/imap4r1.c:3376-3632 | Compiling keeps the meaning: the text that is sent is that of the keys, it parses, and it selects exactly the messages that the local interpreter finds; what the keys are is told field by field by SearchSent and SearchAsked. |
| SearchAsked.Asked | src/c-client/mail.c:3415-3612 | A message is found exactly if it meets the condition of every field of the program (sets, sizes, flags, keywords, dates, ages, texts, header lines), one side of every OR and none of the programs under NOT. |
| SearchAsked.TextFound | src/c-client/mail.c:3537-3605 | A program that asks for one string in Bcc, Cc, From, To, Subject, body or text finds exactly the messages with the string in that field. |
| SearchAsked.ReplyFound | src/c-client/mail.c:3544-3549 | A Return-Path, Sender, Reply-To or In-Reply-To string finds exactly the messages with the string in that header line. |
| SearchAsked.NewsFound | src/c-client/mail.c:3550-3557 | So does a Message-ID, Newsgroups, Followup-To or References string. |
| SearchAsked.HeaderFound | src/c-client/mail.c:3561-3601 | A header line with a string finds exactly the messages with the string in that line. |
| SearchAsked.MarkFound | src/c-client/mail.c:3477-3496 | A flag, its absence, a keyword, its absence, a size and a set item in either order find exactly the messages that have them; both sizes are strict. |
| SearchAsked.TimeFound | src/c-client/mail.c:3497-3534 | Each of the six dates finds exactly the messages whose packed date, of arrival or of the Date: line, is smaller, equal, or not smaller. |
| SearchAsked.AgeFound | src/c-client/mail.c:3509-3513 | OLDER and YOUNGER select by time of arrival and clock, both ends included. |
| SearchAsked.SameTextMeans | src/c-client/mail.c:3850-3866 | Keywords are compared up to the case of letters. |
| SearchSent.TextSent | src/c-client/imap4r1.c:3444-3459 | For one string the text fields send BCC, CC, FROM, TO, SUBJECT, BODY or TEXT and the string, bare or in quotes. |
| SearchSent.ReplySent | src/c-client/imap4r1.c:3463-3474 | Return-Path, Sender, Reply-To and In-Reply-To strings are sent as HEADER keys of those names. |
| SearchSent.NewsSent | src/c-client/imap4r1.c:3475-3486 | Message-ID, Newsgroups, Followup-To and References strings are sent as HEADER keys of those names. |
| SearchSent.HeaderSent | src/c-client/imap4r1.c:3488-3495 | A header line is sent as HEADER, its name and its string. |
| SearchSent.KeywordSent | src/c-client/imap4r1.c:3420-3427 | A keyword sends KEYWORD or UNKEYWORD and the word. |
| SearchSent.FlagsSent | src/c-client/imap4r1.c:3408-3419 | The twelve flags send the twelve keys, OLD for the absence of RECENT. |
| SearchSent.AmountsSent | src/c-client/imap4r1.c:3396-3442 | Sizes and ages send LARGER, SMALLER, OLDER and YOUNGER and the number. |
| SearchSent.DatesSent | src/c-client/imap4r1.c:3428-3434 | The six dates send their keys and the date as day, name of the month and year, unpacked. |
| SearchSent.SetsSent | src/c-client/imap4r1.c:3390-3395 | A set sends its numbers and ranges with commas, UID before a set of UIDs; the set of all messages alone sends ALL. |
| SearchSent.NestedSent | src/c-client/imap4r1.c:3497-3512 | An OR sends both programs in parentheses and a NOT one, whatever they send by themselves. |
| SearchSent.TwoSent | src/c-client/imap4r1.c:3376-3514 | Two keys are sent with one blank between them. |
| Md5Words.LowMixed | src/c-client/auth_md5.c:326-344 | The four mixing functions agree with RFC 1321 in the low 32 bits whatever is above them. |
| Md5Words.LowTurned | src/c-client/auth_md5.c:326-329 | Two shifts of a masked word are its rotation in the low 32 bits. |
| Md5Transform.Block.Rnd | src/c-client/auth_md5.c:326-344 | One macro is one step of RFC 1321 on the low words, masking only once. |
| Md5Transform.Block.Round2 | src/c-client/auth_md5.c:437-440 | The sixteen macros, with the constants, words and shifts of the source, are steps 17 to 32. |
| Md5.Transform | src/c-client/auth_md5.c:415-458 | Agrees in the low 32 bits of every state word with section 3.4 of RFC 1321, garbage above them notwithstanding. |
| Md5.Decode | src/c-client/auth_md5.c:489-497 | Sixteen words, low byte first. |
| Md5.Encode | src/c-client/auth_md5.c:471-480 | The low 32 bits of each word, low byte first, without the garbage. |
| Md5.Context.Count | src/c-client/auth_md5.c:368-370 | The two longs count modulo the square of the width, carry included. |
| Md5.Context.Update | src/c-client/auth_md5.c:366-378 | The context stands for the old data and the new, for every length and fill of the buffer. |
| Md5.Context.Final | src/c-client/auth_md5.c:385-408 | Gives the digest of the padded data with the length field, in one or two blocks, and erases the context. |
| Md5.LengthExact | src/c-client/auth_md5.c:387-391 | The length field is the count of bits modulo 2^64 exactly if the count of bytes fits. |
| Md5.LengthWraps | src/c-client/auth_md5.c:387-391 | With 64-bit longs the length field of 2^64 bytes is not that of RFC 1321. |
| Md5.DigestOf | src/c-client/auth_md5.c:350-408 | Any split of a message over updates gives the digest of RFC 1321. |
| Md5.HmacMd5 | src/c-client/auth_md5.c:277-315 | For every key length the hexadecimal HMAC of section 2 of RFC 2104. |
| Md5Suite.EmptyHex | src/c-client/auth_md5.c:350-408 | Section A.5 of RFC 1321: the digest of no bytes is d41d8cd98f00b204e9800998ecf8427e. |
| Md5Suite.TextHex | src/c-client/auth_md5.c:350-480 | Section A.5 of RFC 1321: the digest of the 62 letters and digits, two blocks with all words different, is d174ab98d277d9f5a5611c2c9f419d9f. |
| Md5Suite.HexAt | src/c-client/auth_md5.c:306-313 | The hexadecimal text has two digits for every byte, the high one first, with small letters. |
| Md5Suite.HmacIs | src/c-client/auth_md5.c:277-315 | HMAC is the digest of the key, padded to 64 bytes and masked with 0x5c, and the digest of the key masked with 0x36 and the text; only a key of more than 64 bytes is digested first. |
| Md5Bits.OpIs | src/c-client/auth_md5.c:326-347 | A step of RFC 1321 in 32-bit vectors is the step in arithmetic modulo 2^32. |
| Mailboxes.HeardAgrees | src/c-client/imap4r1.c:3844-3888 | One true response keeps the client's UIDs right. |
| Mailboxes.RunAgrees | src/c-client/imap4r1.c:3844-3888 | Every story of true EXISTS, EXPUNGE, FETCH and UIDVALIDITY responses keeps them right. |
| Mailboxes.ToldIsKnown | src/c-client/imap4r1.c:3884-3888 | A UID told in a FETCH is known at the end if the mailbox still has it, through later expunges and arrivals. |
| Mailboxes.SoughtIsRight | src/c-client/imap4r1.c:1914-1953 | The lookup answers the message's number exactly, and 0 exactly if the mailbox has no such UID, with or without a hunt. |
| MessageCache.Stream.Size | src/c-client/mail.c:154-174 | Makes room for the messages, keeps every element and leaves the new slots empty. |
| MessageCache.Stream.Element | src/c-client/mail.c:1423-1432 | The slot's element, made if it was empty; what is known does not change. |
| MessageCache.Stream.Shift | src/c-client/mail.c:212-219 | Every slot above moves down by one, its element gets the new number and the top slot becomes empty. |
| MessageCache.Stream.Exist | src/c-client/mail.c:3117-3132 | The messages known stay, the new ones are unknown; the count is capped. |
| MessageCache.Stream.Expunged | src/c-client/mail.c:3157-3184 | Exactly that message's entry goes, and the ones above move down. |
| MessageCache.Stream.Validity | src/c-client/imap4r1.c:4447-4455 | Another UIDVALIDITY makes every UID unknown, the same one changes nothing. |
| MessageCache.Stream.Handle | src/c-client/imap4r1.c:3844-3888 | The cache array follows the response on values, guards included; slot k stays empty or message k + 1's and slots past the messages stay empty. |
| MessageCache.Stream.Msgno | src/c-client/imap4r1.c:1914-1953 | The two searches and the hunt between them are the lookup on values. |
| MessageCache.Session | src/c-client/imap4r1.c:1914-1953 | From an empty stream, after every story, the cache agrees with the mailbox and a lookup is right. |
| UidSets.MsgnoOf | src/c-client/mail.c:2229-2243 | The binary search terminates and finds a UID exactly if it is there. |
| UidSets.LightRange | src/c-client/mail.c:3289-3305 | All four cases of ends that are there or not light exactly the messages of the range, in either order. |
| UidSets.UidSequence | src/c-client/mail.c:3254-3318 | Fails exactly if there is a syntax error, and lights exactly what the parts before it cover. |
| UidSets.PartsRead | src/c-client/mail.c:3254-3318 | A sequence as RFC 3501 writes it is read without error as its ranges, '*' included. |
| UidSets.CoveredMeans | src/c-client/mail.c:3254-3318 | The parts cover a UID exactly if one of the members means it. |
| UidSets.LightMembers | src/c-client/mail.c:3254-3318 | On a valid sequence exactly the messages in the union of its members are lit. |
| UidSets.SequenceSpelled | src/c-client/mail.c:3254-3318 | Numbers, ranges in either order, commas and "*" mean what RFC 3501 says, in the text itself. |
| StringSearch.Skip | src/c-client/misc.c:274-275 | Neither a skip by one nor by j + 1 passes over a match. |
| StringSearch.Ssearch | src/c-client/misc.c:264-280 | In a base that is not empty, true exactly if the pattern stands in it. |
| StringSearch.MaskedEqual | src/c-client/misc.c:219-251 | The masked comparison is equality up to the case of ASCII letters. |
| StringSearch.Search | src/c-client/misc.c:214-254 | The same up to the case of ASCII letters. |
| Newsrc.NewMessages | src/c-client/newsrc.c:110-142 | The ranges written are ascending, apart from each other and cover exactly the deleted messages and the articles that are gone with only deleted ones before them. |
| Newsrc.ExactlyOne | src/c-client/newsrc.c:110-142 | There is only one such list of ranges, so the text is determined. |
| Newsrc.ExactlyMeans | src/c-client/newsrc.c:110-142 | The ranges cover the deleted messages, the articles missing before the first message or after a deleted one, and nothing behind the last. |
| Newsrc.LineSpelled | src/c-client/newsrc.c:110-142 | The text has a blank, numbers, dashes within ranges and commas between them. |
| Newsrc.MarkSpan | src/c-client/newsrc.c:279-287 | Passes exactly the messages before the range and marks exactly those in it. |
| Newsrc.Read | src/c-client/newsrc.c:266-326 | On any line every message gets valid, an article gets deleted or not by the first range that ends at or behind it, those behind all ranges are recent and counted, and the first unseen one is told. |
| Newsrc.WrittenLine | src/c-client/newsrc.c:266-326 | On a line that newsrc_newmessages writes these are exactly the articles in the ranges and those above all of them. |
| Newsrc.CheckUid | src/c-client/newsrc.c:488-510 | Adds one unseen article exactly if no range has it, and one recent one exactly if it is above all. |
| Newsrc.StateOf | src/c-client/newsrc.c:457-473 | The state is the ranges without the blanks before them and the newline. |
| Newsrc.RoundTrip | src/c-client/newsrc.c:110-142 | What is written and read again restores exactly the deleted messages. |
| Newsrc.CountText | src/c-client/newsrc.c:488-510 | Counting the text over the same UIDs gives the reader's recent count and the number of messages not deleted. |
| Base64.Encode | src/c-client/rfc822.c:1990-2029 | The lines of fifteen quads, and the predicted length is exact, so the fatal error cannot happen. |
| Base64.EncodedQuad | src/c-client/rfc822.c:1990-2029 | Every three bytes stand as four characters of the alphabet of RFC 2045 for their groups of six bits, with "=" for what is missing, fifteen quads and a line break to a line, and a break at the end. |
| Base64.Decode | src/c-client/rfc822.c:1892-1981 | For every text inside the buffer: the whole bytes of the data before the end or a legal padding, and an error otherwise. |
| Base64.BlankSkipped | src/c-client/rfc822.c:1941-1942 | Blanks, tabs, line breaks, form feeds and NULs among the letters change nothing. |
| Base64.JunkRefused | src/c-client/rfc822.c:1974-1976 | Any other character that is neither a letter nor "=" makes the text invalid. |
| Base64.PadTaken | src/c-client/rfc822.c:1943-1973 | "=" is valid as the fourth character of a quad, or as the third if another follows at once. |
| Base64.RoundTrip | src/c-client/rfc822.c:1892-2029 | Decoding the encoding of any bytes gives them back. |
| QuotedPrintable.Encode | src/c-client/rfc822.c:2113-2154 | Quotes and folds inside the buffer, for every text and every byte behind it. |
| QuotedPrintable.EncodedFits | src/c-client/rfc822.c:2120-2150 | No encoded line is longer than 76 characters. |
| QuotedPrintable.EncodedText | src/c-client/rfc822.c:2120-2150 | Every "=" is followed by a line break or by two digits in capitals, every other byte is printable or part of a line break, and no blank stands before a break. |
| QuotedPrintable.PlainKept | src/c-client/rfc822.c:2130-2150 | Up to 75 printable characters other than "=" and the blank are written as they are. |
| QuotedPrintable.BufferHolds | src/c-client/rfc822.c:2117-2118 | The text and its NUL fit the buffer, a soft break coming only after 25 bytes. |
| QuotedPrintable.Decode | src/c-client/rfc822.c:2038-2102 | Decodes every text inside its buffer, trailing blanks dropped and soft breaks and bad escapes as the source has them. |
| QuotedPrintable.EscapeRead | src/c-client/rfc822.c:2062-2082 | An escape of two hexadecimal digits of either case is the byte of those digits. |
| QuotedPrintable.SoftRead | src/c-client/rfc822.c:2057-2061 | A soft line break disappears, and blanks before it stay. |
| QuotedPrintable.HardRead | src/c-client/rfc822.c:2088-2097 | Blanks before a hard line break disappear. |
| QuotedPrintable.RoundTrip | src/c-client/rfc822.c:2038-2154 | Decoding the encoding of any bytes gives them back. |
| Multipart.Scan | src/c-client/rfc822.c:376-436 | The parts are exactly those between the delimiter lines of the content; they are ordered, apart and inside it, an unclosed one ends at its end, and the count of bytes left never wraps. |
| Multipart.TestLine | src/c-client/rfc822.c:386-418 | Tells a separator, a closing delimiter and any other line, and skips no line start. |
| Multipart.LineTold | src/c-client/rfc822.c:376-424 | A line is a delimiter exactly if it starts with "--" and the boundary and goes on with "--" alone, which closes, or with blanks and tabs alone; lines start after LF, or after CR without LF. |
| Multipart.BodyTold | src/c-client/rfc822.c:399-417 | Behind the blanks of a delimiter line and its CRLF, CR or LF the body starts. |
| Multipart.PartBetween | src/c-client/rfc822.c:399-417 | From there to the next delimiter there is one part, up to the CRLF or the single character before that. |
| Multipart.PartsApart | src/c-client/rfc822.c:376-436 | The parts between delimiters are ordered, disjoint and inside the content. |
| Multipart.WriteAndScan | src/c-client/rfc822.c:1859-1871 | The parts that are written with a boundary none of their lines has are the parts that are found. |
| Multipart.TwoComposed | src/c-client/rfc822.c:1859-1871 | The text of two parts, byte by byte. |
| AddressText.UnquoteQuoted | src/c-client/rfc822.c:1239-1254 | Taking quotes and backslashes away undoes quoting. |
| AddressText.FlatOut | src/c-client/rfc822.c:1532-1579 | Writing the flat list writes the addresses and groups with their commas and semicolons. |
| AddressText.PlainSpelled | src/c-client/rfc822.c:1532-1597 | Plain words come out as "name <mailbox@host>", "mailbox@host" and "name: members;", with a comma and a blank between them. |
| AddressText.QuotedSpelled | src/c-client/rfc822.c:1612-1625 | In quotes a backslash goes before every quote and backslash and before nothing else. |
| AddressText.SpecialsAre | src/c-client/rfc822.c:79-81 | What ends a word and what a phrase is quoted for are the characters of the source's lists. |
| AddressText.Output.PutCat | src/c-client/rfc822.c:1609-1630 | Writes a word or a phrase, quoted exactly where it has to be. |
| AddressText.Output.PutList | src/c-client/rfc822.c:1532-1579 | Writes any list, counting the groups it is in. |
| AddressParser.SkipWs | src/c-client/rfc822.c:1285-1296 | What is left after all white space and comments. |
| AddressParser.ParseWord | src/c-client/rfc822.c:1153-1220 | A word, quoted or plain, ends where its delimiter is; a delimiter is no word. |
| AddressParser.ParsePhrase | src/c-client/rfc822.c:1133-1145 | A phrase of any number of words ends where its last word does. |
| AddressParser.ParseAddrspec | src/c-client/rfc822.c:1006-1071 | A written mailbox and domain are read back, with the default for a domain that is not written. |
| AddressParser.ParseMailbox | src/c-client/rfc822.c:887-914 | A written address is read back with its name, or none if that was blank. |
| AddressParser.ParseGroup | src/c-client/rfc822.c:811-877 | A written group is read back with all its members and its end; an address is not taken for a group. |
| AddressParser.ParseAdrlist | src/c-client/rfc822.c:719-773 | The written list is read back in order behind the list given. |
| AddressParser.ListSame | src/c-client/rfc822.c:719-1254 | What is read is the list itself exactly if every item is fine. |
| AddressParser.BlankLost | src/c-client/rfc822.c:719-1254 | The blank in front of the personal name " x" is not read back. |
| AddressParser.PrintAndParse | src/c-client/rfc822.c:1532-1630 | Printing and then parsing gives the list back but for its defaults, and unchanged exactly if every item is fine. |
| Calendar.LongDateIsSeconds | src/c-client/mail.c:4682-4720 | The closed form counts the seconds since 1970 by the Gregorian rule, but for the clamp to 0. |
| Calendar.DayOfWeekIsRight | src/c-client/mail.c:2781-2810 | The day of the week is that of the day's number, 1-Jan-1970 being a Thursday. |
| Calendar.KnownDates | src/c-client/mail.c:4682-4720 | The seconds of the start of 2000, of noon on a leap day in the west and of the end of 2097 in the east. |
| Dates.ParseDay | src/c-client/mail.c:2866-2932 | All five styles of a date are read as the day, the month and the year, which may have any number of digits but in the compact style. |
| Dates.ParseTime | src/c-client/mail.c:2933-2967 | The time is taken exactly if it is one of a day, with a numeric zone or the code of a zone's name. |
| Dates.ZoneCodes | src/c-client/mail.c:2957-2967 | Names of zones of one to three letters are compressed as the source has it, longer ones are 0. |
| Dates.ParseDate | src/c-client/mail.c:2838-2967 | With or without a day of the week and a time, the fields written are the fields read; a year written in any number of digits is taken exactly if it is below 49, from 70 to 197 or from 1970 to 2097, as one of the century after 2000, counted from 1900, or itself, and the time exactly if it is one of a day. |
| Dates.MailDateSpelled | src/c-client/mail.c:2761-2773 | The text of a date: the day in two places, the name of the month, the year, the time and the zone, blank for blank. |
| Dates.PrintAndParse | src/c-client/mail.c:2764-2772 | Parsing inverts printing exactly for valid times and zones. |
| Dates.LateSecond | src/c-client/mail.c:2940-2944 | A printed time with 61 seconds is not taken. |
| Dates.LongZone | src/c-client/mail.c:2946-2956 | A printed zone of 60 minutes is taken and lost. |

## Left out

- Network, authentication exchanges other than HMAC, mailbox open and close, drivers, callbacks, logging, parameters and memory release: sequencing of I/O and plumbing.
- Loading the sort cache, overview and envelope fetching and mail_strip_subject: base subjects, dates, ids and references are taken as given.
- ThreadSort.Qsort: stands for the C library's sort and is an insertion sort here; by Threads.SortedIsUnique any ordering of the same messages is the same.
- References.ThreadReferences: message numbers are taken to be distinct; heap addresses are numbered cells, and a dummy node that the source frees stays unreferenced.
- HashTables.HashTab.Lookup: letters above 127 are counted as such and not sign-extended, which only changes buckets.
- SearchCommand.Command.SendSet: does not model the branch for sets longer than the command line, nor the sentinel 0xffffffff that is written as '*'.
- SearchCommand.Command.SendString: strings are 7-bit without NUL, CR, LF, '"' and '\\', so that none is sent as a literal; keywords are atoms.
- SearchMeaning.SearchMessage: tests of header and body text are opaque predicates, message data are taken to be loaded, the section is NIL and the program is not NIL.
- SearchMeaning.CompileAndSearch: agreement asks that the ages of every program inside fit, which SearchMeaning.BothAgesMean shows to be exact for one program; wrong ages in one program may not show in the answer of the whole.
- Md5.DigestOf: agreement with RFC 1321 is stated where the count fits; what is computed otherwise is the second clause.
- MessageCache.Stream: the array of sort cache entries beside the elements, flags and envelopes are not modelled, and FETCH responses carry only UIDs.
- Mailboxes.RunAgrees: the server's responses are true and mailboxes have at most MAXMESSAGES messages, UIDs ascend and are never given twice under one UIDVALIDITY.
- UidSets.UidSequence: longs have 64 bits, and all UIDs of the stream are known.
- Newsrc.Read: finding the group's line in the file is left out.
- Newsrc.NewMessages: UIDs are below 2^63, where the source's printing turns negative.
- Multipart.Scan: for boundaries with line breaks only order, disjointness and bounds of the parts are stated; headers of parts and other body types are left out.
- QuotedPrintable.Encode: the byte behind the source, at which the encoder looks, is a parameter.
- AddressText.Output.PutList: without folding of long lines and at-domain-lists, which the source does not print either.
- AddressParser.SkipComment: the text of the comment is not stated, only where it ends; a comment without an end hides the rest of the text from the cursor and not from older ones.
- AddressParser.ParseWord: ISO-2022-JP shifts are left out, an escape character in a phrase is skipped.
- AddressParser.ParseDomain: domain literals, blanks around dots and errors are modelled, but stated only as far as written addresses have them.
- AddressParser.ParseRouteaddr: at-domain-lists and the external parser for phrases are left out; the RFC 733 "at" is not compiled.
- AddressParser.ParseGroup: groups within groups are parsed, but nothing is stated about them, because a flat list does not keep their nesting.
- Dates.ParseDate: names of zones are left as their code; the table of names and the local zone are not modelled, and texts that are not dates in one of the styles are parsed but nothing is stated about them.
- Calendar.DayOfWeekIsRight: the printing of mail_cdate around the day of the week is left out.
- Charset conversion, mail_search_gets, nntp_search_msg, POP3, ACL, quota and namespace parsing: they would add easy members or have no firm specification.
