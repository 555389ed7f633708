/**
  The chunk record the extraction step hands to the embedder and, after
  retrieval, to the prompt builder: a dictionary with the keys `content`,
  `heading`, `pdf_name` and `page_number`.
 */
module Chunks {

  datatype Chunk = Chunk(content: string, heading: string, pdfName: string, pageNumber: int)
}
