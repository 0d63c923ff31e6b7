# PDF-Data-Wizard upload core, in Dafny

The upload page of PDF-Data-Wizard takes a PDF, splits its text into sentences,
packs the sentences into chunks under a token budget, embeds each chunk and
upserts the vectors into a Pinecone index. This project models the two pieces
of that page that are logic, not calls into other services:

- **the chunker** (`create_chunk_list`), module `Chunker` in `chunker.dfy`. It
  walks the sentences with a string buffer. It keeps appending while the buffer
  counts fewer tokens than the budget. Once the count reaches or exceeds the
  budget, it emits the buffer, including the sentence just added. At the last
  sentence it emits whatever is left. The loop is the method `CreateChunkList`.
  It is proved equal to a recursive reference definition, `Groups`/`Chunks`.
  The reference definition in turn is proved to be the one and only
  `GreedyPartition` of the sentences: consecutive, never-split runs of
  sentences; every proper prefix of a run is under the budget; every run but
  the last reaches it.
- **the upload step** (`add_to_pinecone`), module `Loader` in `loader.dfy`.
  - New ids start one past the largest id the index returned. A failed `int()`
    or an empty id list is an error result, as Python's `ValueError` is.
  - The ids are written to the frame's `Index` column as strings.
  - The rows are sent in slices of 32 as (id, embedding, {Filename, Text,
    Metadata}) triples.
  - The data frame is the class `Frame`. Its `index` field is the `Index`
    column that the step writes in place.
  - The Pinecone index is the class `VectorIndex`. It holds a map from id to
    vector and a ghost log of the batches it received.
  - Python's `int()` and `str()` on ids are module `Decimal` in `decimal.dfy`.
    A written id reads back as the integer it came from.

The tokenizer (tiktoken's gpt-3.5-turbo encoding) is the parameter
`tok: string -> nat`. The budget is the parameter `budget`; `create_chunk_list` fixes it
at 3000 (`Chunker.TokenBudget`).

What the code guarantees, and what the model therefore states:

- `create_chunk_list` emits its buffer once the buffer *reaches or exceeds*
  the budget. So every chunk but the last is at or over the budget, and only
  the proper prefixes of a chunk are under it (`ChunksReachBudget`,
  `ChunkPrefixesUnderBudget`).
- The code does not check the budget, so the model has no precondition on it
  and its lemmas hold for every budget.
- A chunk is non-empty whenever no sentence is empty (`NonEmptyChunks`). With an
  empty sentence an empty chunk can occur, for instance as the final chunk
  after a flush.

## Model

| member | source | states |
|---|---|---|
| `Chunker.CreateChunkList` | streamlit/pages/CRUD_Database.py:77-91 | the buffer loop returns exactly the reference chunk list; its chunks concatenate to the concatenated sentences; there are no more chunks than sentences |
| `Chunker.GroupsCharacterized` | streamlit/pages/CRUD_Database.py:82-90 | a grouping of the sentences is a greedy partition (consecutive non-empty runs, proper prefixes under budget, every run but the last at or over budget) if and only if it is the one the chunker produces |
| `Chunker.GroupFromSound` | streamlit/pages/CRUD_Database.py:82-90 | from any buffer the loop can hold, the remaining steps produce a greedy partition of buffer plus remaining sentences |
| `Chunker.GroupFromUnique` | streamlit/pages/CRUD_Database.py:82-90 | from any buffer the loop can hold, no other greedy partition of buffer plus remaining sentences exists |
| `Chunker.ChunksPreserveText` | streamlit/pages/CRUD_Database.py:82-90 | concatenating the chunks in order gives the concatenated sentences: nothing lost, duplicated or reordered |
| `Chunker.ChunkCount` | streamlit/pages/CRUD_Database.py:78-91 | no sentences give no chunks and any sentence gives at least one chunk; never more chunks than sentences |
| `Chunker.ChunksReachBudget` | streamlit/pages/CRUD_Database.py:84-90 | every chunk but the last counts at least `budget` tokens |
| `Chunker.ChunkPrefixesUnderBudget` | streamlit/pages/CRUD_Database.py:83-90 | each chunk is the text of its sentence group, and every proper non-empty prefix of that group is under the budget |
| `Chunker.OversizedSentenceStandsAlone` | streamlit/pages/CRUD_Database.py:83-90 | every chunk has at least one sentence, and a sentence at or over the budget arriving on an empty buffer is a chunk by itself |
| `Chunker.NonEmptyChunks` | streamlit/pages/CRUD_Database.py:80-90 | if no sentence is empty, no chunk is empty |
| `Chunker.ThreeSentenceExample` | streamlit/pages/CRUD_Database.py:77-91 | "A.", "B.", "C." at one token each with budget 2 give "A.B." then "C." |
| `Chunker.GroupFrom` | streamlit/pages/CRUD_Database.py:82-90 | from a buffer holding `pending`, the remaining sentences give no further group exactly when none is left, and every group emitted holds at least one sentence |
| `Chunker.Groups` | streamlit/pages/CRUD_Database.py:77-91 | the sentence groups behind the chunks: none exactly when there are no sentences, and none of them empty |
| `Chunker.Chunks` | streamlit/pages/CRUD_Database.py:77-91 | the chunk list, one chunk per group: empty exactly when there are no sentences |
| `Chunker.TwoSentencesAtPageBudget` | streamlit/pages/CRUD_Database.py:81-90 | at the page's 3000-token budget, a first sentence at or over it is flushed on its own, and two sentences that fit together make one chunk |
| `Decimal.ParseInt` | streamlit/pages/CRUD_Database.py:137 | `int()` succeeds exactly on an optional sign followed by at least one ASCII digit (no digit limit, see Left out); a negative value comes only from a leading minus |
| `Decimal.FormatInt` | streamlit/pages/CRUD_Database.py:139 | `str()` writes a minus sign exactly for negative numbers, then digits with no leading zero ("0" only for zero); no digit limit, see Left out |
| `Decimal.NumeralValue` | streamlit/pages/CRUD_Database.py:137 | the value `int()` returns on every numeral: a digit string reads as its decimal value, leading zeros and a '+' change nothing, a '-' negates ("007" is 7, "+5" is 5, "-0" is 0) |
| `Decimal.ParseFormat` | streamlit/pages/CRUD_Database.py:137-139 | an id written with `str()` reads back with `int()` as the same integer |
| `Decimal.FormatInjective` | streamlit/pages/CRUD_Database.py:139 | two integers are written as the same id string exactly when they are equal |
| `Loader.ParseIds` | streamlit/pages/CRUD_Database.py:137 | on success, every id parsed in order; on failure, the first id that is not an integer is reported |
| `Loader.MaxOf` | streamlit/pages/CRUD_Database.py:137 | the result is an element of the list and no element exceeds it |
| `Loader.StartingIndex` | streamlit/pages/CRUD_Database.py:137 | succeeds exactly when the observed ids are non-empty and all integers; then it is one past the largest; an empty list is the `max` error; otherwise the first non-integer id is the error |
| `Loader.NewIds` | streamlit/pages/CRUD_Database.py:138-139 | the Index column has one id per row, and the k-th reads back as start + k |
| `Loader.NewIdsFresh` | streamlit/pages/CRUD_Database.py:137-139 | the new ids read back as start, start+1, ...; they are pairwise distinct and each is greater than and different from every observed id |
| `Loader.Batches` | streamlit/pages/CRUD_Database.py:143-144 | no rows give no slices, and every slice holds 1 to 32 rows |
| `Loader.Payload` | streamlit/pages/CRUD_Database.py:150-154 | one triple per row, in row order: the k-th carries the k-th id of the Index column, the row's embedding and its metadata record |
| `Loader.MetadataOf` | streamlit/pages/CRUD_Database.py:152 | the `{Filename, Text, Metadata}` record of a row (no contract of its own; what is sent is stated by `Payload` and `MetadataList`) |
| `Loader.Zip3` | streamlit/pages/CRUD_Database.py:154 | `zip` gives exactly as many triples as the shortest list has, so all of them when they have one length; triple k takes element k of each list |
| `Loader.BatchesPartition` | streamlit/pages/CRUD_Database.py:142-144 | the batches concatenated in order are the rows: each row is sent exactly once, in order |
| `Loader.BatchesSizes` | streamlit/pages/CRUD_Database.py:142-144 | there are ceil(n/32) batches, each of 1 to 32 rows, all but the last exactly 32 |
| `Loader.BatchAt` | streamlit/pages/CRUD_Database.py:143-144 | row j of batch b is row 32*b + j of the input |
| `Loader.UpsertedInOrder` | streamlit/pages/CRUD_Database.py:145-154 | the k-th triple sent pairs the k-th new id with the k-th row's embedding and its {Filename, Text, Metadata} |
| `Loader.MetadataList` | streamlit/pages/CRUD_Database.py:150-153 | one metadata record per row of the batch, in order, built from that row's file name, text and metadata |
| `Loader.UpsertAll` | streamlit/pages/CRUD_Database.py:155 | upserting never removes an id, and every upserted id becomes a key |
| `Loader.UpsertAllEffect` | streamlit/pages/CRUD_Database.py:155 | upserting vectors with distinct ids stores each under its id, leaves every other entry unchanged and adds exactly those ids as keys |
| `Loader.PayloadStored` | streamlit/pages/CRUD_Database.py:137-155 | after the upload each row is stored under its new id, and every observed id keeps its entry |
| `Loader.Frame.constructor` | streamlit/pages/CRUD_Database.py:102 | a new frame holds the uploaded rows and no Index column yet |
| `Loader.VectorIndex.constructor` | streamlit/pages/CRUD_Database.py:25 | a new index handle holds the given entries and has been sent no batch |
| `Loader.VectorIndex.Upsert` | streamlit/pages/CRUD_Database.py:155 | the index entries become the old ones updated with the batch, and the batch is appended to the log |
| `Loader.BatchVectors` | streamlit/pages/CRUD_Database.py:144-154 | the triples built from rows i to hi (ids, embeddings, metadata records, zipped) are exactly that slice of the payload |
| `Loader.UpsertInBatches` | streamlit/pages/CRUD_Database.py:142-155 | the batch loop appends exactly the 32-row slices of the payload to the log and leaves the entries updated with the whole payload |
| `Loader.AddToIndex` | streamlit/pages/CRUD_Database.py:136-155 | on an id error nothing changes and that error is the result; otherwise the Index column holds the new ids, the batches are sent in order, each row is stored under its id, and observed ids keep their entries |

## Left out

- Token counting itself (tiktoken's BPE): the tokenizer is the parameter `tok`, taken to be a pure function.
- `Chunker.CreateChunkList`: tiktoken's `encode` raises `ValueError` on a buffer containing special-token text such as `<|endoftext|>` (its default `disallowed_special="all"`), so `create_chunk_list` can fail partway through. The model's `tok` is total, so the model assumes counting always succeeds and always returns a chunk list.
- Sentence splitting (TextBlob) and PDF text extraction (PyPDF2): foreign libraries. The chunker takes the sentence list as input.
- Embedding generation (`gen_embed`): calls to the OpenAI API with a 20-second sleep between them. Embeddings are opaque `seq<real>` values carried unchanged.
- Fetching existing ids (`get_all_ids_from_index`): a query with a random vector and `top_k=100`. Its result is the input `observed`. No claim is made about ids the index holds but did not return, so a new id may still collide with one of those.
- The Pinecone network calls themselves: `upsert` is modelled as a map update by id, later vectors overwriting earlier ones.
- The delete handler, the S3/CSV upload (`upload_csv_to_s3`) and `options_list`: network and file I/O.
- The Streamlit page code, `ChatBot.py`, `fast_api/database.py` and the Airflow DAG: UI, HTTP, database, crypto and scheduler glue, not part of this model.
- `Decimal.ParseInt` covers an optional sign followed by ASCII digits. Python's `int()` also accepts surrounding whitespace, `_` between digits and non-ASCII digits; those inputs are read as errors here. CPython's default limit of 4300 digits on int/str conversion is not modelled: past it `int()` and `str()` raise `ValueError`, while `ParseInt` and `FormatInt` still succeed. Ids in the index are far shorter (an index id is at most 512 characters).
- The data frame is reduced to its rows plus the `Index` column. Other pandas behaviour (dtypes, copying on slice) is not modelled.
