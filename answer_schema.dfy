/**
  The names of the two top-level members of the answer the LLM is asked for.
  The prompt spells them out in its schema; the LLM runner's fallback answer
  is built from them.
 */
module AnswerSchema {
  const ExtractedSections: string := "extracted_sections"
  const SubsectionAnalysis: string := "subsection_analysis"
}
