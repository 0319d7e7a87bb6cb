# Bulk processing service: a verified model

A Dafny model of three parts of the bulk processing service, which converts HTML documents to PDF and merges them, and
proofs of what these parts are for.

- **The merge of tagged PDFs** (`app/pdf_merger.py`). A tagged PDF is held together by keys: a page and an annotation hold
  keys into a number tree (the parent tree), its entries point at elements of a structure tree, and the elements point back
  at pages. Removing the placeholder page, putting a cover in its place and merging any number of documents all change the
  three together. Proved: the parent tree stays the exact inverse of the structure (ISO 32000-1:2008, section 14.7.4.4),
  every lookup finds after a merge what it found before, every page, element and content item that stays is there as what it
  was, and every embedded file under a name that is told. Where the code keeps languages, keys or associated files only of
  some documents, the exact condition is proved.
- **The job store** (`app/job_manager.py`, `app/cleanup.py`, `app/converter_controller.py`). Threads of several replicas
  share the directory of a job, guarded by thread locks that a delete prunes and by POSIX record locks that belong to the
  whole process. Proved over every interleaving of adds, failures, finishes, deletes, sweeps, faults and crashes: mutual
  exclusion, crash consistency, no deadlock and an end of every call, that adds and finishes amount to one list of documents
  in real time order, what a caller may conclude from an answer, and that a sweep working from an old listing removes only
  what it may.
- **The throttle on key set refreshes** (`app/polarion_auth.py`). Proved: a bound on refreshes in any window of time,
  whatever is asked and when.

`dafny verify dfyconfig.toml` checks the whole project.

## How it is modelled

Values and objects. `StructTree`, `StructCopy`, `TaggedPdf`, `EmbeddedFiles` and `Merge` say what each operation computes,
on documents as values; `TaggedLaw`, `AddLaw`, `Merge`, `MergeKeys`, `Elements`, `Covers`, `MergedFiles` and `Languages`
prove what these leave, in terms of pages, elements, keys and files rather than of the operations themselves.
`ElementStore` and `PdfDocument` are the form the code has: a `Pdf` object whose elements are indirect objects in a table,
each naming its parent (`/P`) and its kids (`/K`: absent, one, or an array), changed in place by loops and by recursion over
the objects. Each method is proved to leave exactly what its specification says, so the theorems about the values hold of
what the methods leave. `JobFiles` does the same for the operations on one job, `KeyRefresh` for the verifier.

Copying between documents (`copy_foreign`). An arbitrary injective renaming of object identities for each source document,
onto objects that are new in the target: the same object copied twice is the same copy. A reference to a page that was not
copied becomes null, which reads as no page. Copying an element copies all that is reached from it through `/P` and `/K`,
so the whole table of elements comes along, pruned or not; the theorems are about what is reached from the Document.

What the law asks of its inputs (`TaggedPdf.Sound`): no page or annotation stands twice; in a tagged document keys are
non-negative, distinct and each present in the parent tree, elements form a tree under one Document, whose kids are
elements, and a reference dictionary states its page. A document is whole (`TaggedPdf.Whole`) if it is sound and, where it
has no structure, no page or annotation holds a key, which would point into nothing. Merging keeps both. Something of an
element stays (`Elements.Stays`) if its subtree holds a content item on a kept page, a childless element on no page left out,
or a reference without a page under one; `StructTree.KeepsIffAnchored` shows that this is what pruning goes by.

What one might expect of the code, and it does not do. Each has an input that shows it, and the exact condition:

- The content items of a page that is left out go: `StructTree.StrayReferenceIsKept`, `PruneFiltersItemsIff`.
- A merge keeps keys distinct whatever it is given: `MergeKeys.MissingKeysCollide`, `MergeKeysFitIff`.
- What a document associates with itself is listed in the merge: `EmbeddedFiles.AssociatedIsLeftOut`, `AllListedIff`.
- Every element stays in its language: `Languages.UnstatedLanguageIsTakenOver`, `MergeKeepsLanguagesIff`; `StatedFits` is
  the ordinary case.
- Only the placeholder page goes: `Merge.PlaceholderCoverIsTaken`, `CoverThenMergeStripsOnce`.
- The names of a merge's files are distinct: `EmbeddedFiles.SameNamesStay`, `MergedNamesAscendIff`.
- A conversion answered as failed is counted as failed: `JobAnswers.FailedIsNotAlwaysCounted`, `FailedIsCountedIff`.

The job store as a state machine (`JobStore`). A call has a program counter; a step is one access to a lock, the lock map
or a file, outside the locks too: a handler looks the job up before it takes them, and a finish reads the counts, and the
result from the path it was given, after it has let go of them. A file is torn between the two steps of a write; replacing
one is a single step. Any file access, and taking the record lock, can fail instead, and a replica can crash between any two
steps, which drops its locks. `Hears` is what the handler answers. The history of committed records is a ghost log.
`JobAlone` ties the two forms together: a call that nothing disturbs, of any kind, commits, answers and removes what the
methods of `JobFiles` do in one go. Assumed: `rmtree` is one step; job ids are fresh, so one job is followed, and calls on it start once it has been
created; the clock is one and does not go back; nothing else touches the directory. A result stands for the list of the
documents merged into it, which a merge reads in one step under the lock; what a merge of documents is, is the first part.

Where the documentation and the code differ: the repository's own README.md (line 276) finds stuck active jobs by
`created_at`, the code goes by the last activity (`app/cleanup.py:73-75`). The model follows the code.

## Model

| member | source | states |
|---|---|---|
| NumberTree.ReadIgnoresNesting | app/pdf_merger.py:79-88 | However a number tree is split into nodes, reading it gives what its pairs give in one list |
| NumberTree.ReadFindsEveryPair | app/pdf_merger.py:79-88 | In a tree with distinct keys a lookup finds a value if and only if some node at any depth stores it under that key |
| NumberTree.ReadTakesLast | app/pdf_merger.py:79-88 | Where a key stands twice, the pair stored last is read |
| NumberTree.ReadNumberTree | app/pdf_merger.py:79-88 | The recursive fill of one dictionary gives the entries of the tree |
| NumberTree.RoundTrip | app/pdf_merger.py:79-97 | A tree of any nesting, read, written flat and read again gives the same map, with keys strictly ascending (section 7.9.7) |
| NumberTree.NextKey | app/pdf_merger.py:97-97 | The next key is past every key and one past the greatest, 0 for an empty tree |
| StructTree.PruneFiltersItems | app/pdf_merger.py:130-152 | Where every reference states its page, the content items left are, in order, exactly those on kept pages |
| StructTree.PruneCountsItems | app/pdf_merger.py:130-152 | Without that, pruning leaves the items on kept pages and each stray reference on top |
| StructTree.PruneFiltersItemsIff | app/pdf_merger.py:146-150 | The items left are the filtered ones if and only if no reference without a page stands under an element left out |
| StructTree.StrayReferenceIsKept | app/pdf_merger.py:146-150 | A concrete tree where a reference without a page is kept though its page is left out |
| StructTree.PruneKeepsSurvivors | app/pdf_merger.py:130-152 | The elements left are those that keep something of their own, each pruned, in order: none loses the elements above it |
| StructTree.KeepsIffAnchored | app/pdf_merger.py:130-152 | An element survives if and only if its subtree holds a kept content item, a childless element that is pageless or on a kept page, or a stray reference |
| StructTree.PruneTwice | app/pdf_merger.py:130-152 | Pruning to P and then to Q is pruning to their intersection |
| StructTree.PruneIdempotent | app/pdf_merger.py:227-227 | Pruning twice to the same pages changes nothing more |
| StructTree.PruneIsIdentityIff | app/pdf_merger.py:130-135 | Pruning changes nothing of a subtree if and only if all of it is on kept pages, so a regular table stays regular |
| StructTree.LeftOutPageHoldsNoBareMark | app/pdf_merger.py:226-227 | A surviving element whose page is left out keeps no bare MCID, so copying its page as null leaves no pageless content |
| Elements.PrunedIsLeft | app/pdf_merger.py:130-152 | Pruning leaves of an element its structure type, its page, its language, and, in order, exactly the kids of which something stays |
| StructCopy.CopyRenamesItems | app/pdf_merger.py:193-208 | A pruned element copied with its pages holds the copies of its items, in order, none without its page |
| StructCopy.CopyRenamesElements | app/pdf_merger.py:193-201 | The elements of a copy are the renamed elements, in order |
| StructCopy.CopyKeepsLangs | app/pdf_merger.py:198-206 | A copy speaks of its elements the languages the original does |
| StructCopy.PruneKeepsLangs | app/pdf_merger.py:130-152 | Each element that survives pruning keeps its nearest language |
| StructCopy.MarkKeepsLangs | app/pdf_merger.py:199-206 | Marked with a catalog language, moved elements are in the languages they had under that catalog, whatever they are put under |
| TaggedLaw.RemoveFirstPageKeepsWhole | app/pdf_merger.py:155-165 | Removing the placeholder page keeps a document sound, and whole, and every lookup from the other pages |
| TaggedLaw.CopyEntriesDomain | app/pdf_merger.py:181-190 | The keys after copying are the target's and the given ones shifted, no others |
| TaggedLaw.CopyEntriesTakes | app/pdf_merger.py:181-190 | Under each shifted key stands the copy of the source's entry, whatever is copied after it |
| TaggedLaw.ShiftedCopyKeys | app/pdf_merger.py:104-114 | The keys a shifted copy holds are those of its original, each shifted |
| TaggedLaw.SplicedTree | app/pdf_merger.py:193-208 | The spliced Document is a tree of distinct elements, which holds the target's items and the copied ones side by side |
| AddLaw.AddedOwnLookup | app/pdf_merger.py:212-235 | What is found from a page of the target is what was found before |
| AddLaw.AddedCopyLookup | app/pdf_merger.py:212-235 | What is found from a copied page is the copy of what was found in the source |
| AddLaw.AddedEntriesAre | app/pdf_merger.py:181-190 | The parent tree holds the target's entries as they were and, under each shifted key, the source's entry with each element copied, in its place |
| Elements.AddBringsElement | app/pdf_merger.py:193-208 | Each element of the source of which something stays has an element in the result: same structure type, copy of its page if that was taken, copies of the kids that stay, and exactly which language it states |
| AddLaw.AddedKeys | app/pdf_merger.py:228-234 | After adding no two pages or annotations share a key, and the parent tree holds exactly the keys they hold |
| AddLaw.AddedInverse | app/pdf_merger.py:212-235 | After adding, the parent tree and the structure are inverses of each other on all pages |
| AddLaw.AddUntaggedKeepsWhole | app/pdf_merger.py:117-122 | Where one of the two is untagged, the added pages and their annotations hold no key, those of the target keep theirs, and the result is whole if and only if the target is |
| AddLaw.AddKeepsWhole | app/pdf_merger.py:212-235 | Adding pages of any sound document, tagged or not, to a sound one leaves a sound document, whole if and only if the target is |
| AddLaw.AddKeepsKeysIff | app/pdf_merger.py:185-186 | After one addition the parent tree holds exactly the keys in use if and only if the source had an entry for every key of the pages taken |
| MergeKeys.MergeKeysFitIff | app/pdf_merger.py:185-190 | A merge keeps keys distinct and exactly those in use in its parent tree if and only if that is so of the first document, less its placeholder, and each later tagged one has entries for all keys of its pages |
| MergeKeys.MissingKeysCollide | app/pdf_merger.py:185-190 | A whole document and two whose page key is missing from their parent tree make a merge where two pages hold one key |
| Merge.CoverKeepsWhole | app/pdf_merger.py:341-356 | A cover without pages is refused, any other leaves a sound document, whole if and only if the content is, less its placeholder |
| Merge.MergeKeepsWhole | app/pdf_merger.py:359-380 | The merge of any number of sound documents, tagged or not, is sound, whole if and only if the first is, less its placeholder, tagged if and only if the first is, and in its language |
| Merge.SmallDocumentIsWhole | tests/test_pdf_merger.py:393-401 | What the law asks can be met: a tagged page with a paragraph and a link meets it |
| Merge.MergeableExists | app/pdf_merger.py:359-380 | Any sound documents can be merged: there are copies of each whose objects are new to the merge so far |
| Merge.FindsWhatHolds | app/pdf_merger.py:104-107 | In a whole document a lookup finds exactly the reachable element that holds the item |
| Merge.MergedNextKeyIsFreeIff | app/pdf_merger.py:91-97 | The next key a merge names is past every key in use and one past the greatest if and only if the first document names it so, or starts with a placeholder, or some later document is tagged |
| Merge.MergeConservesPages | app/pdf_merger.py:359-380 | The merged pages are those of the documents, in order, each document less its placeholder |
| Merge.MergeCountsPages | app/pdf_merger.py:61-67 | A merge has the pages of all its documents, less one for each document of several pages that starts with a placeholder |
| Elements.MergeKeepsElements | app/pdf_merger.py:359-380 | Over a whole merge, each element of a later tagged document of which something stays has one with the renamed identity, its structure type, its page and kids renamed, and its language or the mark |
| Elements.MergeKeepsFirstElements | app/pdf_merger.py:359-380 | The elements of the first document stay as they are; if it starts with a placeholder, those of which something is on other pages stay, with their structure type, page, language and the kids that stay |
| Elements.MergeKeepsDocument | app/pdf_merger.py:367-378 | The Document of a merge is the first document's but for its kids |
| Elements.MergeConservesElements | app/pdf_merger.py:359-380 | The elements of a merge are, in order, those of the tagged documents of which something stays, renamed, and no others |
| Covers.CoverKeepsCatalog | app/pdf_merger.py:341-356 | Under a cover the embedded and associated files, the catalog language and the Document but for its kids are the content's |
| Covers.CoverComesFirst | app/pdf_merger.py:341-356 | The first page is the copy of the cover's first page, and the others are the content's, less the placeholder |
| Covers.CoverKeepsElements | app/pdf_merger.py:341-356 | The elements of the content stay, those of the placeholder excepted, with structure type, page and language |
| Covers.CoverBringsElements | app/pdf_merger.py:341-356 | Each element of the cover with something on its first page has its copy, of the same structure type |
| Covers.CoverConservesElements | app/pdf_merger.py:341-356 | There are no others, and those of the cover come first |
| Covers.CoverKeepsLookups | app/pdf_merger.py:341-356 | From the pages of the content everything is found as before |
| Covers.CoverBringsLookups | app/pdf_merger.py:341-356 | From the copy of the cover's page the copy of an element is found if and only if the cover finds the element |
| Covers.CoverFindsCopiesOnly | app/pdf_merger.py:341-356 | And nothing else is found there |
| Merge.CoverThenMergeStripsOnce | app/pdf_merger.py:341-380 | The placeholder goes once over cover and merge; another page goes if and only if the cover is itself a placeholder before other pages |
| Merge.PlaceholderCoverIsTaken | app/pdf_merger.py:341-380 | A cover that is a placeholder in front of a page of the content goes at the merge |
| Merge.StrippedIsPrunedAlready | app/pdf_merger.py:226-227 | The second pruning of a stripped document, as it is added to the merge, changes nothing |
| Merge.MergeConservesItems | app/pdf_merger.py:359-380 | The content items of a merge are those of the tagged documents, copied, in order: none lost, none doubled |
| Merge.MergeKeepsLookups | app/pdf_merger.py:359-380 | From the copy of each page of each later tagged document the merge finds, for the copy of a content, the copy of an element if and only if the document finds the element for the content |
| Merge.MergeFindsCopiesOnly | app/pdf_merger.py:359-380 | Whatever the merge finds from a copied page is the copy of what the document of that page, which is tagged, finds there |
| Merge.MergeKeepsFirstLookups | app/pdf_merger.py:359-380 | From each page of the first document the merge finds what it found |
| Languages.LangsDependIff | app/pdf_merger.py:199-206 | Kids, and the elements below them, are in the same languages under two inherited ones if and only if these are the same or every kid states its own |
| Languages.AddKeepsLanguagesIff | app/pdf_merger.py:193-209 | The elements added are in the languages they were in, and those of the target in theirs, if and only if what the added ones inherit is what they come under, or none inherits |
| Languages.MergeKeepsLanguagesIff | app/pdf_merger.py:341-380 | After a merge every element is in the language it, or its original, was in, by its nearest ancestor or the catalog, if and only if each later document fits the first in that way |
| Languages.UnstatedLanguageIsTakenOver | app/pdf_merger.py:199-206 | A document without a language, merged to one that states one: its elements come to be in that |
| Languages.AllLanguagesAreOld | app/pdf_merger.py:359-380 | Those languages, with every document less its placeholder, are the ones the elements have in the documents as they were given |
| Languages.StatedFits | app/pdf_merger.py:199-206 | A document fits where its catalog states a language, or the target's states none, and no Document states one |
| Languages.CoverKeepsLanguagesIff | app/pdf_merger.py:341-356 | After a cover all are in their languages if and only if the cover fits the content |
| Merge.MergeMergesFiles | app/pdf_merger.py:367-379 | The files of a merge are those of folding the documents' files |
| EmbeddedFiles.UniqueNameIsFirstFree | app/pdf_merger.py:277-283 | The name picked is free, under the lowest free number, within one more candidate than there are names |
| EmbeddedFiles.FindUniqueName | app/pdf_merger.py:277-283 | The loop ends on every finite set of names, with that name |
| EmbeddedFiles.ByNameIsStrict | app/pdf_merger.py:300-300 | Sorted by code points the names are strictly ascending if and only if none stood twice |
| Text.LessIff | app/pdf_merger.py:300-300 | The order is that of the first code point in which two names differ, a proper prefix first |
| EmbeddedFiles.OnceListsEachOnce | app/pdf_merger.py:302-308 | The list of associated files holds what it was made of, each indirect file once |
| EmbeddedFiles.OnceIsFirstSeen | app/pdf_merger.py:302-308 | It is in the order files were first seen, and listing again changes nothing |
| EmbeddedFiles.ListOnce | app/pdf_merger.py:302-308 | The loop with the set of identities gives that list |
| EmbeddedFiles.NameTreeEntries | app/pdf_merger.py:268-274 | The recursive extension of one list gives the entries in stored order |
| MergedFiles.ReadAsStored | app/pdf_merger.py:268-274 | An entry is read as often as the nodes of the name tree store it, at any depth |
| MergedFiles.ReadInOrder | app/pdf_merger.py:268-274 | The entries of a node stand first, those of each kid together and after those of the kids before it |
| EmbeddedFiles.AppendNamed | app/pdf_merger.py:325-330 | The loop over added files gives each a name free of all before it |
| MergedFiles.NamedAreGiven | app/pdf_merger.py:327-330 | Each added file is copied, under its own name where that is free, else under the first free number from 2 on |
| MergedFiles.MergedEntries | app/pdf_merger.py:316-332 | The entries of a merge are exactly the first document's and, for each later one, copies so named after all before them |
| MergedFiles.EachFileIsKept | app/pdf_merger.py:316-332 | Each file of each later document is in the merge, under its own name if and only if no earlier entry has it |
| MergedFiles.FirstFilesStay | app/pdf_merger.py:311-313 | The first document's entries stay as often as its tree stores them, names included, and the merge has as many entries as all documents |
| MergedFiles.FilesConserved | app/pdf_merger.py:316-332 | A file is embedded as often as the nodes of the documents' trees store it, or what it is a copy of |
| EmbeddedFiles.MergedNamesAscendIff | app/pdf_merger.py:251-332 | The merge's names are strictly ascending if and only if the first document's were distinct |
| EmbeddedFiles.SameNamesStay | app/pdf_merger.py:300-313 | A first document with one name twice makes a merge with it twice |
| EmbeddedFiles.MergedFilesConserved | app/pdf_merger.py:316-332 | The merge embeds the files of every document exactly as often as the documents did |
| EmbeddedFiles.MergedAssociatedOnce | app/pdf_merger.py:302-332 | Its associated files are those of the first document and of all later ones that embed files, each indirect one once in first-seen order |
| EmbeddedFiles.MergedAssociatedGrows | app/pdf_merger.py:331-332 | Documents merged later add to the end of that list only |
| EmbeddedFiles.AllListedIff | app/pdf_merger.py:316-332 | Every indirect file that a document associates with itself is listed in the merge if and only if each later document that associates one also embeds some file |
| EmbeddedFiles.AssociatedIsLeftOut | app/pdf_merger.py:318-320 | A document that embeds nothing loses the file it associates |
| EmbeddedFiles.MergedFilesAreAssociated | app/pdf_merger.py:316-332 | Every embedded file is associated if that was so in each document |
| ElementStore.PruneOneMore | app/pdf_merger.py:142-150 | Pruning one kid leaves the objects of the kids before it pruned and those after it untouched |
| ElementStore.CopyRepresents | app/pdf_merger.py:198-198 | The copies of the objects amount to the copy of the tree, parents included |
| ElementStore.MovedUnder | app/pdf_merger.py:201-208 | Moved under the Document, the copies and its own kids amount to the spliced tree, every element naming its parent |
| PdfDocument.Pdf.PruneElement | app/pdf_merger.py:130-152 | The recursion over objects leaves the pruned tree, answers whether the element is kept, and touches no other object |
| PdfDocument.FlatTree | app/pdf_merger.py:91-97 | The loop over sorted keys builds the flat tree |
| PdfDocument.TakeEntries | app/pdf_merger.py:181-190 | The loop over keys takes over the entries, shifted, passing over missing ones |
| PdfDocument.InsertCopies | app/pdf_merger.py:168-178 | Inserting one by one puts the copies before or after the pages, in order |
| PdfDocument.ShiftKeys | app/pdf_merger.py:110-114 | The page's key and those of its annotations are shifted |
| PdfDocument.Detach | app/pdf_merger.py:117-122 | The page and its annotations lose their keys, no other annotation does |
| PdfDocument.Pdf.RemoveFirstPage | app/pdf_merger.py:155-165 | In place: page, entries and structure are as specified |
| PdfDocument.Pdf.CopyElements | app/pdf_merger.py:193-208 | In place: the copied kids get the Document as parent and the language mark, and stand before or after its own |
| PdfDocument.Pdf.Add | app/pdf_merger.py:212-235 | In place: the whole document is that of the specification, the other's structure is pruned where both are tagged, only new objects are made |
| PdfDocument.Pdf.WriteEmbeddedFiles | app/pdf_merger.py:291-308 | In place: one sorted tree and the list of associated files, nothing where there is nothing |
| PdfDocument.Pdf.AddEmbeddedFiles | app/pdf_merger.py:316-332 | In place: the files of the source are added as specified |
| PdfDocument.ReplaceFirstPageWithCover | app/pdf_merger.py:341-356 | The content becomes the specified document, or stays as it is under an error for a cover without pages |
| PdfDocument.MergePdfFiles | app/pdf_merger.py:359-380 | The loop leaves the fold of all documents, an empty document for none |
| CoverPlaceholders.MatchIsFound | app/pdf_merger.py:57-58 | A match of the pattern at the start of a string is found, with its length |
| CoverPlaceholders.SubstituteFrees | app/pdf_merger.py:57-58 | A substitution by digits leaves no match of its pattern and makes none of the other |
| CoverPlaceholders.SubstitutionsCommute | app/pdf_merger.py:57-58 | The two substitutions give the same in either order |
| CoverPlaceholders.ResolveReplacesFirst | app/pdf_merger.py:49-58 | What stands before the first placeholder stays, a page number becomes 1 and a total the page count, and the rest is resolved |
| CoverPlaceholders.ResolveLeavesTheRest | app/pdf_merger.py:57-58 | A template without placeholders stays as it is |
| CoverPlaceholders.ResolveIsFinal | app/pdf_merger.py:49-58 | For any template and page count no match of either pattern is left, and resolving again changes nothing |
| JobLocks.LockInvKept | app/job_manager.py:73-111 | Every event keeps the invariant of thread locks, lock map, open lock file and record lock |
| JobLocks.OneOpenPerReplica | app/job_manager.py:36-50 | At most one thread of a replica has the lock file open, so no close drops the record lock of another |
| JobLaw.MutualExclusion | app/job_manager.py:44-111 | In every reachable state at most one call of all replicas is in the critical section, though deletes prune the lock map unlocked |
| JobLaw.CrashConsistent | app/job_manager.py:119-192 | In every reachable state the record is whole, file i is the i-th added document for every i below the count, and a completed job has a whole result of them all |
| JobLaw.EventRefines | app/job_manager.py:119-192 | Each event leaves the record, or replaces it by that of one more commit of the acting call, and never adds to a finished job |
| JobLaw.AddsHaveTheirIndex | app/job_manager.py:136-154 | A call told an index has its document there, and no other call is told the same |
| JobLaw.EveryIndexIsOfOneAdd | app/job_manager.py:136-154 | Every index below the count is of exactly one add, which was told it unless its replica crashed |
| JobLaw.OutcomesAreTrue | app/job_manager.py:136-167 | A call that was not stopped comes out as added, or as recorded, if and only if the history counts it as that |
| JobAnswers.AcceptedIffAdded | app/converter_controller.py:169-182 | A caller hears "accepted" if and only if the document was added, unless the replica was stopped |
| JobAnswers.FailedIsCountedIff | app/converter_controller.py:159-167 | A call answered as failed is counted if and only if no file access of it failed and the job was there whenever it looked |
| JobAnswers.FailedIsCountedWhileJobStands | app/converter_controller.py:159-167 | So it is counted if no file access of it failed and the job is still there |
| JobAnswers.FailedIsNotAlwaysCounted | app/converter_controller.py:165-167 | A run where a delete comes between the look at the job and the recording: the answer is "failed", and nothing is counted |
| JobLaw.CountsAreExact | app/job_manager.py:136-167 | pdf_count and failed_count count each committed call once, and no call in both |
| JobLaw.FinishesAgree | app/converter_controller.py:193-223 | A finish serves, without the lock, the whole merge of all documents in order with their count, or nothing and then the job is gone; any two that serve a result serve the same |
| JobLaw.DocumentsStay | app/job_manager.py:148-154 | A document below the count is never rewritten in any run |
| JobLaw.CompletedIsFrozen | app/job_manager.py:169-192 | Once completed, count, completed_at and result never change |
| JobLaw.AddsInRealTimeOrder | app/job_manager.py:136-154 | An add that starts after another was answered gets a later index |
| JobLaw.NothingAddedAfterFinish | app/job_manager.py:145-147 | No call that starts after a finish has served is told that it added |
| JobLaw.LaterFinishAgrees | app/job_manager.py:178-181 | Whatever happens in between, a later finish that serves a result serves the same as an earlier one |
| JobLaw.RemovedBy | app/job_manager.py:207-215 | A job goes only by a delete or by a sweep in the critical section |
| JobLaw.SweptCompleted | app/cleanup.py:56-67 | A job removed as completed has the completed_at of the old listing, though it is not read again, and it is past the time to live |
| JobLaw.SweptActive | app/cleanup.py:70-89 | A job removed as stuck is active and had no add and no failure for twice the time to live before the sweep began |
| JobProgress.NoDeadlock | app/job_manager.py:73-111 | While a call is under way some call can take its own next step, or the directory is gone and it fails at it, after any faults, crashes and deletes |
| JobProgress.CallsEnd | app/job_manager.py:73-111 | The calls there are go on a bounded number of times, and when none can any more all are done |
| JobAlone.AloneIsInOneGo | app/converter_controller.py:146-237 | From any reachable state a call of any kind that nothing disturbs ends by its own steps with the commits and the answer of the operation done in one go; the job, and its lock object, are gone then if and only if they were, or it is a delete, or a sweep and the job was completed longer ago than the time to live or idle for twice that |
| JobHistory.ReplayCounts | app/job_manager.py:136-192 | The record counts the history, and is completed exactly if it holds a finish |
| JobHistory.ClosedIsFrozen | app/job_manager.py:145-147 | A finish freezes documents, count and completed_at, failures may still follow |
| JobHistory.ReplayTimes | app/job_manager.py:136-192 | The last activity is exactly the time of the last add or failure, or the creation; completed_at is the time of the finish |
| JobSafety.InvKept | app/job_manager.py:119-192 | Every event keeps the invariant of files, calls and history |
| JobFiles.Job.AddPdf | app/job_manager.py:136-154 | Undisturbed: a missing or finished job is refused and untouched, else the document is committed at the next index |
| JobFiles.Job.RecordAFailure | app/job_manager.py:156-167 | Undisturbed: a failure is committed whatever the status |
| JobFiles.Job.CompleteJob | app/job_manager.py:169-192 | Undisturbed: the merge of all documents, committed once; a second time the first result |
| JobFiles.Job.WriteMetadata | app/job_manager.py:119-123 | The record is written beside and put in place, nothing else changes |
| JobFiles.RunCleanup | app/cleanup.py:40-89 | Undisturbed: a job goes if and only if it was completed longer ago than the time to live, or is active and its last activity lies longer ago than twice that; no other changes |
| JobFiles.HandleAdd | app/converter_controller.py:146-182 | Undisturbed: which of the four answers is given, and that exactly one commit, of that kind, or none goes with it |
| JobFiles.HandleFinish | app/converter_controller.py:193-223 | Undisturbed: the download holds all documents in order with both counts, or the refusal fits the state |
| KeyRefresh.GrantedAreSpaced | app/polarion_auth.py:171-177 | Any two forced refreshes lie at least 30 seconds apart for each step between them, whatever is asked |
| KeyRefresh.RefreshesInWindow | app/polarion_auth.py:64-66 | A window of W seconds holds at most W / 30 + 1 of them |
| KeyRefresh.RefusedIffRecent | app/polarion_auth.py:175-177 | On a clock that does not go back a refresh is refused if and only if one was made less than 30 seconds before |
| KeyRefresh.TokenVerifier.Refresh | app/polarion_auth.py:171-182 | The field throttles as the history says; a fetch that fails uses up the turn |
| KeyRefresh.TokenVerifier.Decode | app/polarion_auth.py:148-155 | At most two decodings, the second if and only if a refresh was made and fetched, and which result is given |

## Left out

- PDF parsing and saving, text extraction, HTML conversion, HTTP: whether a first page is the placeholder is a given of the page, a conversion is a given success or failure.
- Form XObjects that hold a parent-tree key: the code handles pages and annotations only.
- Role and class maps (`app/pdf_merger.py:238-248`): on a clash the target wins, so nothing of the source's roles can be promised.
- Bookmarks, named destinations and the page mode (`app/pdf_merger.py:251-265`): they are dropped.
- Attributes of elements beyond tag, parent, page, language and kids: they are copied unchanged.
- The refusal of `copy_foreign` to copy a direct object, a null entry of a parent tree, and a number tree with an odd `/Nums`.
- PdfDocument.ShiftKeys: pages and annotations are values in the lists and maps of a `Pdf`, so keys are changed on the copies before these are inserted, and a page object shared between two documents is not modelled.
- PdfDocument.Pdf.CopyElements: all elements of the source come along in one step, where `copy_foreign` copies on first use; the source does not change in between.
- JobFiles.Job.AddPdf: one caller at a time; what holds of many is in the state machine.
- The job directory before its first record is written, ids, parameters, the initiator and the download's file name.
- A directory removed half, a result removed from outside, and two jobs at once.
- `failed_count` after completion: a failure may still be recorded, so it is not frozen.
- Path containment, authorization of a job, request validation, debug files, health checks: one-branch checks or plumbing.
- JWT decoding, signatures, the JWKS payload and the verifier's own checks of claims: library calls or one-branch checks.
