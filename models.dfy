/**
 * core/models.py: the record `core/rag_service.py` returns. `RAGResponse`
 * and `ErrorResponse` declare the same nine keys with the same types, so one
 * datatype stands for both.
 */
module Models {
  datatype RagResponse = RagResponse(
    pergunta: string,
    resposta: string,
    fontes: string,
    paginas: string,
    trechos: string,
    modelo: string,
    tempoResposta: string,
    timestamp: int,
    versao: string)
}
